/** The consumer's message handler, and why an undisturbed delivery is a run of the consumer
    protocol. Faults of the database and of the broker are parameters. */
module MessagingController {
  import opened Wrappers
  import opened Json
  import opened SchemaVersion
  import opened Contracts
  import opened ErrorClassifier
  import opened IdempotentTransaction
  import P = ConsumerProtocol
  import ContractDispatch
  import RetryPolicy

  /** One call of publishToRetry: opening the channel raises, the local write is refused, or
      the confirmation raises. `straggles`: an unconfirmed copy still gets to the broker. */
  datatype PublishFaults = PublishFaults(channel: Option<Thrown>, accepted: bool, confirm: Option<Thrown>, straggles: bool)

  /** publishToRetry returned, or threw with or without the copy at the broker. */
  datatype RetryPublish = Scheduled | Refused(reached: bool)

  function PublishResult(f: PublishFaults): RetryPublish {
    if f.channel.Some? then Refused(false)
    else if f.accepted && f.confirm.None? then Scheduled
    else Refused(f.straggles)
  }

  datatype Faults = Faults(
    record: Reply, tx: TxFaults, clear: Reply, publish: PublishFaults, message: string, now: string)

  /** What a first processing writes besides the ledger row. */
  datatype Effect = Effect(message: MessageRow, event: OutboxEventInput)

  function EffectOf(event: EventV2): Effect {
    Effect(MessageRow(event.payload.subject, event.payload.content, "system-user"), PersistedEvent(event.payload, event.env.correlationId))
  }

  function PersistedEvent(payload: PayloadV2, correlationId: string): OutboxEventInput {
    OutboxEventInput("MessagePersisted", JObj(map["title" := JStr(payload.subject)]), Some(correlationId), None)
  }

  /** What happened to the delivery. */
  datatype Disposition = Unsettled | Acked | Requeued | DeadLettered

  /** How one delivery ends: the tables, the delivery, the retry copy the broker got, the rows
      a processing wrote. */
  datatype Ending = Ending(db: P.Db, disposition: Disposition, retry: Option<P.Msg>, wrote: Option<Effect>)

  function IdentifyWith(lex: Lexical): P.Config {
    P.Config((body: Json, header: Header) => ContractDispatch.ConsumedId(lex, body, header))
  }

  function ClearedDb(db: P.Db, e: P.EventId, clear: Reply): P.Db {
    if clear.Lost? && !clear.tookEffect then db else db.(attempts := db.attempts - {e})
  }

  function RecordedDb(db: P.Db, e: P.EventId, record: Reply): P.Db {
    if record.Lost? && !record.tookEffect then db else db.(attempts := P.CountUp(db.attempts, e))
  }

  /** The exception the business part of the handler raises, if any. */
  function Failure(db: P.Db, e: P.EventId, f: Faults): Option<Thrown> {
    var result := ResultOf(db.processed, e, 1, f.tx);
    if result.Threw? then Some(result.err) else if f.clear.Lost? then Some(f.clear.err) else None
  }

  function DbAfterBusiness(db: P.Db, e: P.EventId, f: Faults): P.Db {
    var after := DbAfterTx(db, e, 1, f.tx);
    if ResultOf(db.processed, e, 1, f.tx).Threw? then after else ClearedDb(after, e, f.clear)
  }

  predicate RetryDue(k: nat, err: Thrown) {
    ClassifyError(err).Transient? && k < RetryPolicy.MAX_ATTEMPTS
  }

  function HandledEnding(db: P.Db, event: EventV2, msg: P.Msg, f: Faults): Ending {
    var e := event.env.eventId;
    var recorded := RecordedDb(db, e, f.record);
    if f.record.Lost? then Ending(recorded, Unsettled, None, None)
    else
      var k := P.CountOf(recorded.attempts, e);
      var end := DbAfterBusiness(recorded, e, f);
      var wrote := if Commits(recorded.processed, e, 1, f.tx) then Some(EffectOf(event)) else None;
      var failure := Failure(recorded, e, f);
      if failure.None? then Ending(end, Acked, None, wrote)
      else
        var d := Decision(k, failure.value, msg, event.env.correlationId, f);
        Ending(end, d.0, d.1, wrote)
  }

  /** Retry or dead-letter: what happens to the delivery, and the retry copy the broker gets. */
  function Decision(k: nat, err: Thrown, msg: P.Msg, correlationId: string, f: Faults): (Disposition, Option<P.Msg>) {
    if RetryDue(k, err) then
      var copy := P.RetryMsg(msg, f.message, f.now, correlationId);
      match PublishResult(f.publish)
      case Scheduled => (Acked, Some(copy))
      case Refused(reached) => (Requeued, if reached then Some(copy) else None)
    else (DeadLettered, None)
  }

  function EndingOf(lex: Lexical, db: P.Db, msg: P.Msg, f: Faults): Ending {
    match ContractDispatch.Consume(lex, msg.body, msg.headers.schemaVersion)
    case None => Ending(db, Acked, None, None)
    case Some(event) => HandledEnding(db, event, msg, f)
  }

  // ---- What an ending means ----

  /** Ledger row, message and MessagePersisted row appear together, once, with the event's
      content, or not at all. */
  lemma EndingsAtomic(db: P.Db, event: EventV2, msg: P.Msg, f: Faults)
    ensures var e := event.env.eventId;
            var t := HandledEnding(db, event, msg, f);
            if t.wrote.Some?
            then e !in db.processed && t.db.processed == db.processed + multiset{e}
                 && t.db.messages == db.messages + multiset{e} && t.db.persisted == db.persisted + multiset{}[e := 1]
                 && t.wrote.value.message == MessageRow(event.payload.subject, event.payload.content, "system-user")
                 && t.wrote.value.event.eventType == "MessagePersisted"
                 && t.wrote.value.event.payload == JObj(map["title" := JStr(event.payload.subject)])
                 && t.wrote.value.event.correlationId == Some(event.env.correlationId)
                 && t.wrote.value.event.maxAttempts == None
            else t.db.processed == db.processed && t.db.messages == db.messages && t.db.persisted == db.persisted
  {
    var recorded := RecordedDb(db, event.env.eventId, f.record);
    assert recorded.processed == db.processed && recorded.messages == db.messages && recorded.persisted == db.persisted;
  }

  /** A delivery that has just made its event processed still enters the error path exactly
      when the commit, the release of its connection or the clearing of the counter raised. */
  lemma ProcessedYetFailed(db: P.Db, e: P.EventId, f: Faults)
    requires e !in db.processed
    ensures e in DbAfterBusiness(db, e, f).processed && Failure(db, e, f).Some? <==>
            Commits(db.processed, e, 1, f.tx) && (f.tx.commit.Lost? || f.tx.release.Some? || f.clear.Lost?)
  {
    ResultTellsEffect(db, e, 1, f.tx);
  }

  /** The exception that decides a delivery, by precedence: opening the transaction, releasing
      the connection, rolling back after something inside raised, the ledger insert, the
      rollback of a duplicate, the message, the outbox row, the commit, clearing the counter.
      `known`: the event was processed before, so that the insert finds its id taken. */
  function Culprit(known: bool, f: Faults): Option<Thrown> {
    var inside :=
      if f.tx.ledger.Some? && !IsUniqueViolation(f.tx.ledger.value) then f.tx.ledger
      else if f.tx.ledger.Some? || known then f.tx.duplicateRollback
      else if f.tx.work.Some? then f.tx.work
      else if 0 in f.tx.outbox then Some(f.tx.outbox[0])
      else if f.tx.commit.Lost? then Some(f.tx.commit.err)
      else None;
    if f.tx.begin.Some? then f.tx.begin
    else if f.tx.release.Some? then f.tx.release
    else if inside.Some? then (if f.tx.rollback.Some? then f.tx.rollback else inside)
    else if f.clear.Lost? then Some(f.clear.err)
    else None
  }

  lemma CulpritDecides(db: P.Db, e: P.EventId, f: Faults)
    ensures Failure(db, e, f) == Culprit(e in db.processed, f)
  {
    if f.tx.outbox != map[] {
      FirstFaultIsFirst(f.tx.outbox, 1, if 0 in f.tx.outbox then f.tx.outbox[0] else UNIQUE_VIOLATION);
    }
    assert FirstFault(f.tx.outbox, 1) == if 0 in f.tx.outbox then Some(f.tx.outbox[0]) else None;
  }

  /** How every delivery of a valid event ends, on the faults alone: left unsettled exactly if its
      attempt could not be counted; acked without a retry exactly if nothing raised; handed to
      publishToRetry exactly if the deciding exception is transient and fewer than five attempts
      are counted, and then acked if that returns and requeued if it throws; dead-lettered in
      all other cases. */
  lemma EndingExactly(db: P.Db, event: EventV2, msg: P.Msg, f: Faults)
    ensures var e := event.env.eventId;
            var t := HandledEnding(db, event, msg, f);
            var culprit := Culprit(e in db.processed, f);
            var retries := culprit.Some? && ClassifyError(culprit.value) == Transient && P.CountOf(db.attempts, e) + 1 < 5;
            var publishes := f.publish.channel == None && f.publish.accepted && f.publish.confirm == None;
            && (t.disposition == Unsettled <==> f.record != Answered)
            && (f.record == Answered ==>
                  && (t.disposition == Acked <==> culprit == None || (retries && publishes))
                  && (t.disposition == Requeued <==> retries && !publishes)
                  && (t.disposition == DeadLettered <==> culprit.Some? && !retries)
                  && (t.retry.Some? <==> retries && f.publish.channel == None && (publishes || f.publish.straggles)))
            && (f.record != Answered ==> t.retry == None && t.wrote == None)
  {
    var e := event.env.eventId;
    var recorded := RecordedDb(db, e, f.record);
    assert recorded.processed == db.processed;
    CulpritDecides(recorded, e, f);
  }

  /** An acked delivery of a valid event is processed or has a confirmed successor; a
      dead-lettered one failed for good or used up its attempts; one left unsettled could not
      even be counted. */
  lemma EndingsJustified(db: P.Db, event: EventV2, msg: P.Msg, f: Faults)
    requires f.tx.ledger.Some? ==> !IsUniqueViolation(f.tx.ledger.value)
    ensures var e := event.env.eventId;
            var t := HandledEnding(db, event, msg, f);
            var k := P.CountOf(db.attempts, e) + 1;
            && (t.disposition.Acked? ==>
                  e in t.db.processed
                  || (t.retry.Some? && f.publish.channel.None? && f.publish.accepted && f.publish.confirm.None?))
            && (t.disposition.DeadLettered? ==>
                  exists err :: Culprit(e in db.processed, f) == Some(err)
                    && (k >= RetryPolicy.MAX_ATTEMPTS || !ClassifyError(err).Transient?))
            && (t.disposition.Requeued? ==>
                  k < RetryPolicy.MAX_ATTEMPTS
                  && (f.publish.channel.Some? || !f.publish.accepted || f.publish.confirm.Some?))
            && (t.disposition.Unsettled? <==> f.record.Lost?)
            && (t.retry.Some? ==> k < RetryPolicy.MAX_ATTEMPTS && t.retry.value.body == msg.body
                                  && t.retry.value.headers.schemaVersion == msg.headers.schemaVersion)
  {
    var e := event.env.eventId;
    var recorded := RecordedDb(db, e, f.record);
    ResultTellsEffect(recorded, e, 1, f.tx);
    EndingExactly(db, event, msg, f);
    if Failure(recorded, e, f).None? && ResultOf(recorded.processed, e, 1, f.tx).Duplicate? {
      assert e in recorded.processed;
    }
  }

  /** A message that says no event in the version it resolves to is acked away: no attempt is
      counted, nothing is stored, no retry is published. */
  lemma RejectedExactly(lex: Lexical, db: P.Db, msg: P.Msg, f: Faults)
    ensures (forall e ::
               !(if ResolveSchemaVersion(msg.body, msg.headers.schemaVersion, None) == V2 then SaysV2(lex, msg.body, e)
                 else e.payload.priority == Normal && e.payload.metadata == map[]
                      && exists version :: SaysV1(lex, msg.body, ContractDispatch.AsV1(e, version)))) ==>
            EndingOf(lex, db, msg, f) == Ending(db, Acked, None, None)
  {
    var read := ContractDispatch.Consume(lex, msg.body, msg.headers.schemaVersion);
    if read.Some? {
      ContractDispatch.ConsumesExactly(lex, msg.body, msg.headers.schemaVersion, read.value);
    }
  }

  /** The attempt counter after a delivery: one more, unless counting it had no effect; gone, if
      the transaction reported a result and the clearing took effect. Other events' counters
      stay. */
  lemma CounterExactly(db: P.Db, event: EventV2, msg: P.Msg, f: Faults)
    ensures var e := event.env.eventId;
            var counts := HandledEnding(db, event, msg, f).db.attempts;
            var counted := f.record == Answered || f.record.tookEffect;
            var reported := Culprit(e in db.processed, f.(clear := Answered)) == None;
            var cleared := f.record == Answered && reported && (f.clear == Answered || f.clear.tookEffect);
            && (cleared ==> e !in counts)
            && (counted && !cleared ==> e in counts && counts[e] == (if e in db.attempts then db.attempts[e] else 0) + 1)
            && (!counted ==> counts == db.attempts)
            && (forall other | other != e ::
                  (other in counts <==> other in db.attempts)
                  && (other in counts ==> counts[other] == db.attempts[other]))
  {
    var e := event.env.eventId;
    var recorded := RecordedDb(db, e, f.record);
    CulpritDecides(recorded, e, f.(clear := Answered));
  }

  /** What is on a retry copy: everything of the message but five headers. The count is one more
      than the message's, the first error and the first failure time are the message's own if
      it has them, the class is that of the only errors retried. */
  lemma RetryCopyExactly(db: P.Db, event: EventV2, msg: P.Msg, f: Faults)
    requires HandledEnding(db, event, msg, f).retry.Some?
    ensures var copy := HandledEnding(db, event, msg, f).retry.value;
            var h := copy.headers;
            var was := msg.headers;
            && copy.body == msg.body && copy.eventType == msg.eventType && h.schemaVersion == was.schemaVersion
            && (forall n :: was.retryCount == Plain(JNum(n)) ==> h.retryCount == Plain(JNum(n + 1.0)))
            && ((forall n :: was.retryCount != Plain(JNum(n))) ==> h.retryCount == Plain(JNum(1.0)))
            && h.firstError == (if was.firstError in {Absent, Plain(JNull)} then Plain(JStr(f.message)) else was.firstError)
            && h.failedAt == (if was.failedAt in {Absent, Plain(JNull)} then Plain(JStr(f.now)) else was.failedAt)
            && h.errorClass == Plain(JStr("TRANSIENT"))
            && h.correlationId == Plain(JStr(event.env.correlationId))
  {
  }

  /** Processed and dead-lettered do not exclude each other. A delivery ends with its event
      processed and the message dead-lettered exactly when its attempt was counted, the event
      was processed before or this delivery committed it, and the deciding exception is not
      transient or the attempts are used up. */
  lemma DeadLetteredThoughProcessed(db: P.Db, event: EventV2, msg: P.Msg, f: Faults)
    ensures var e := event.env.eventId;
            var t := HandledEnding(db, event, msg, f);
            var culprit := Culprit(e in db.processed, f);
            t.disposition.DeadLettered? && e in t.db.processed <==>
              && f.record.Answered?
              && (e in db.processed || Commits(db.processed, e, 1, f.tx))
              && culprit.Some?
              && (ClassifyError(culprit.value) != Transient || P.CountOf(db.attempts, e) + 1 >= 5)
  {
    var e := event.env.eventId;
    var recorded := RecordedDb(db, e, f.record);
    assert recorded.processed == db.processed;
    EndingsAtomic(db, event, msg, f);
    EndingExactly(db, event, msg, f);
  }

  /** A clearing that raises an unclassified error dead-letters the event it was processed for. */
  lemma ProcessedAndDeadLettered(db: P.Db, event: EventV2, msg: P.Msg, f: Faults, err: Thrown, tookEffect: bool)
    requires event.env.eventId !in db.processed && ClassifyError(err) != Transient
    requires f.record.Answered? && f.clear == Lost(tookEffect, err)
    requires f.tx == TxFaults(None, None, None, None, map[], Answered, None, None)
    ensures var t := HandledEnding(db, event, msg, f); t.disposition.DeadLettered? && event.env.eventId in t.db.processed
  {
    assert FirstFault(map[], 1).None?;
    DeadLetteredThoughProcessed(db, event, msg, f);
  }

  /** So does a redelivery of an event processed long ago, if no transaction can be opened. */
  lemma RedeliveryDeadLetters(db: P.Db, event: EventV2, msg: P.Msg, f: Faults, err: Thrown)
    requires event.env.eventId in db.processed && ClassifyError(err) != Transient
    requires f.record.Answered? && f.tx.begin == Some(err)
    ensures var t := HandledEnding(db, event, msg, f); t.disposition.DeadLettered? && event.env.eventId in t.db.processed
  {
    DeadLetteredThoughProcessed(db, event, msg, f);
  }

  // ---- The handler ----

  /** One delivery on the consumer's channel. It can be settled once: a second ack or nack of the
      same delivery is a protocol error, so whatever is to precede the ack has to be done by then. */
  class Delivery {
    const msg: P.Msg
    var disposition: Disposition

    constructor (msg: P.Msg)
      ensures this.msg == msg && disposition == Unsettled
    {
      this.msg := msg;
      disposition := Unsettled;
    }

    method Ack()
      requires disposition.Unsettled?
      modifies this
      ensures disposition == Acked
    {
      disposition := Acked;
    }

    method Nack(requeue: bool)
      requires disposition.Unsettled?
      modifies this
      ensures disposition == if requeue then Requeued else DeadLettered
    {
      disposition := if requeue then Requeued else DeadLettered;
    }
  }

  /** The publisher's confirm channel: what it has sent and the broker has not confirmed, and
      what the broker has received. */
  class ConfirmChannel {
    var inFlight: seq<P.Msg>
    var received: seq<P.Msg>

    constructor ()
      ensures inFlight == [] && received == []
    {
      inFlight, received := [], [];
    }

    /** The result only tells whether the local buffer took the message. */
    method Publish(copy: P.Msg, bufferHasRoom: bool) returns (accepted: bool)
      modifies this`inFlight
      ensures accepted == bufferHasRoom && inFlight == old(inFlight) + [copy]
    {
      inFlight := inFlight + [copy];
      accepted := bufferHasRoom;
    }

    /** Returns only when the broker has everything that was in flight. */
    method WaitForConfirms(raised: Option<Thrown>) returns (err: Option<Thrown>)
      modifies this
      ensures err == raised
      ensures err.None? ==> inFlight == [] && received == old(received) + old(inFlight)
      ensures err.Some? ==> inFlight == old(inFlight) && received == old(received)
    {
      if raised.None? {
        received := received + inFlight;
        inFlight := [];
      }
      err := raised;
    }

    /** What is in flight after a failed publish gets there after all, or never. */
    method Resolve(straggles: bool)
      modifies this
      ensures inFlight == [] && received == old(received) + (if straggles then old(inFlight) else [])
    {
      if straggles {
        received := received + inFlight;
      }
      inFlight := [];
    }
  }

  class RetryPublisher {
    const channel: ConfirmChannel

    constructor (channel: ConfirmChannel)
      ensures this.channel == channel
    {
      this.channel := channel;
    }

    /** If it returns, the broker has the copy; if it throws, the broker may have it all the
        same, but at most once. */
    method PublishToRetry(copy: P.Msg, f: PublishFaults) returns (threw: bool)
      requires channel.inFlight == []
      modifies channel
      ensures channel.inFlight == []
      ensures !threw ==> channel.received == old(channel.received) + [copy]
      ensures threw ==> channel.received == old(channel.received) || channel.received == old(channel.received) + [copy]
      ensures threw <==> f.channel.Some? || !f.accepted || f.confirm.Some?
      ensures threw && channel.received != old(channel.received) ==> f.channel.None? && f.straggles
      ensures f.channel.None? && f.straggles ==> channel.received == old(channel.received) + [copy]
    {
      if f.channel.Some? {
        return true;
      }
      var accepted := channel.Publish(copy, f.accepted);
      if !accepted {
        channel.Resolve(f.straggles);
        return true;
      }
      var err := channel.WaitForConfirms(f.confirm);
      if err.Some? {
        channel.Resolve(f.straggles);
        return true;
      }
      threw := false;
    }
  }

  class MessagingService {
    const transactions: OutboxTransaction

    constructor (transactions: OutboxTransaction)
      ensures this.transactions == transactions
    {
      this.transactions := transactions;
    }

    /** The event's message and its MessagePersisted row, unless `e` was processed before. */
    method HandleMessageCreationIdempotent(event: EventV2, id: string, f: TxFaults) returns (result: TxResult)
      modifies transactions.store
      ensures transactions.store.View() == DbAfterTx(old(transactions.store.View()), event.env.eventId, 1, f)
      ensures result == ResultOf(old(transactions.store.processed), event.env.eventId, 1, f)
      ensures var commits := Commits(old(transactions.store.processed), event.env.eventId, 1, f);
              && transactions.store.stored == old(transactions.store.stored) + (if commits then [EffectOf(event).message] else [])
              && transactions.store.outbox ==
                 old(transactions.store.outbox) + (if commits then [RecordOf(EffectOf(event).event, id)] else [])
    {
      var message := MessageRow(event.payload.subject, event.payload.content, "system-user");
      result := transactions.RunIdempotentWithOutboxEvents(
        event.env.eventId, message, [PersistedEvent(event.payload, event.env.correlationId)], [id], f);
    }
  }

  class MessagingController {
    const service: MessagingService
    const tracker: RetryAttemptTracker
    const publisher: RetryPublisher

    constructor (service: MessagingService, tracker: RetryAttemptTracker, publisher: RetryPublisher)
      ensures this.service == service && this.tracker == tracker && this.publisher == publisher
    {
      this.service := service;
      this.tracker := tracker;
      this.publisher := publisher;
    }

    /** What a delivery adds to the tables' content. */
    twostate predicate Wrote(id: string, wrote: Option<Effect>)
      reads tracker.store
    {
      && tracker.store.stored == old(tracker.store.stored) + (if wrote.Some? then [wrote.value.message] else [])
      && tracker.store.outbox == old(tracker.store.outbox) + (if wrote.Some? then [RecordOf(wrote.value.event, id)] else [])
    }

    /** `id` names the outbox row a first processing writes. */
    method HandleMessage(lex: Lexical, d: Delivery, id: string, f: Faults)
      requires tracker.store == service.transactions.store
      requires d.disposition.Unsettled? && publisher.channel.inFlight == []
      modifies d, tracker.store, publisher.channel
      ensures var end := EndingOf(lex, old(tracker.store.View()), d.msg, f);
              && tracker.store.View() == end.db && Wrote(id, end.wrote)
              && d.disposition == end.disposition
              && publisher.channel.received ==
                 old(publisher.channel.received) + (if end.retry.Some? then [end.retry.value] else [])
    {
      var version := ResolveSchemaVersion(d.msg.body, d.msg.headers.schemaVersion, None);
      var validated := if version.V2? then ParseV2(lex, d.msg.body).Some? else ParseV1(lex, d.msg.body).Some?;
      if !validated {
        d.Ack();
        return;
      }
      var event: EventV2;
      if version.V2? {
        event := ParseV2(lex, d.msg.body).value;
      } else {
        var v1 := ParseV1(lex, d.msg.body).value;
        ContractDispatch.ParsedV1IsGood(lex, d.msg.body);
        ContractDispatch.UpcastExactly(lex, v1);
        event := ContractDispatch.Upcast(v1).value;
      }
      HandleEvent(event, d, id, f);
    }

    /** Count the attempt, process, then decide between ack, retry and dead-letter. */
    method HandleEvent(event: EventV2, d: Delivery, id: string, f: Faults)
      requires tracker.store == service.transactions.store
      requires d.disposition.Unsettled? && publisher.channel.inFlight == []
      modifies d, tracker.store, publisher.channel
      ensures var end := HandledEnding(old(tracker.store.View()), event, d.msg, f);
              && tracker.store.View() == end.db && Wrote(id, end.wrote)
              && d.disposition == end.disposition
              && publisher.channel.received ==
                 old(publisher.channel.received) + (if end.retry.Some? then [end.retry.value] else [])
    {
      CountUpIs(tracker.store.attempts, event.env.eventId);
      var attempt := tracker.RecordAttempt(event.env.eventId, f.record);
      assert tracker.store.View() == RecordedDb(old(tracker.store.View()), event.env.eventId, f.record);
      if attempt.None? {
        return;
      }
      var failure := Process(event, id, f);
      if failure.None? {
        d.Ack();
        return;
      }
      Decide(attempt.value, failure.value, event.env.correlationId, d, f);
    }

    /** The retry copy is confirmed before the original is acked. */
    method Decide(attempt: nat, err: Thrown, correlationId: string, d: Delivery, f: Faults)
      requires d.disposition.Unsettled? && publisher.channel.inFlight == []
      modifies d, publisher.channel
      ensures var decision := Decision(attempt, err, d.msg, correlationId, f);
              && d.disposition == decision.0
              && publisher.channel.received ==
                 old(publisher.channel.received) + (if decision.1.Some? then [decision.1.value] else [])
    {
      if ClassifyError(err).Transient? && attempt < RetryPolicy.MAX_ATTEMPTS {
        var copy := P.RetryMsg(d.msg, f.message, f.now, correlationId);
        var threw := publisher.PublishToRetry(copy, f.publish);
        if threw {
          d.Nack(true);
          return;
        }
        d.Ack();
      } else {
        d.Nack(false);
      }
    }

    /** The body of the try: the transaction, then the counter is cleared. */
    method Process(event: EventV2, id: string, f: Faults) returns (failure: Option<Thrown>)
      requires tracker.store == service.transactions.store
      modifies tracker.store
      ensures tracker.store.View() == DbAfterBusiness(old(tracker.store.View()), event.env.eventId, f)
      ensures Wrote(id, if Commits(old(tracker.store.processed), event.env.eventId, 1, f.tx) then Some(EffectOf(event)) else None)
      ensures failure == Failure(old(tracker.store.View()), event.env.eventId, f)
    {
      var result := service.HandleMessageCreationIdempotent(event, id, f.tx);
      if result.Threw? {
        return Some(result.err);
      }
      failure := tracker.ClearAttempts(event.env.eventId, f.clear);
    }
  }
}
