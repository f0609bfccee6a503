/** The consumer's database as its services use it: the tables, the transaction that writes
    ledger row, message and outbox rows together, and the durable attempt counter. Faults of
    the database are parameters of the statements. */
module IdempotentTransaction {
  import opened Wrappers
  import opened Json
  import opened ErrorClassifier
  import opened OutboxTable
  import opened ConsumerProtocol

  /** A statement whose reply may get lost after it took effect, or before. */
  datatype Reply = Answered | Lost(tookEffect: bool, err: Thrown)

  const UNIQUE_VIOLATION: Thrown := Thrown(ErrorInstance, Some(UNIQUE_VIOLATION_CODE), Some(UNIQUE_VIOLATION_CODE), true)

  const DEFAULT_MAX_ATTEMPTS: int := 5

  /** The columns an outbox row is inserted with; the budget defaults to five attempts. */
  lemma RecordColumns(input: OutboxEventInput, id: string)
    ensures var r := RecordOf(input, id);
            && r.eventId == Some(id) && r.eventType == input.eventType && r.payload == input.payload
            && r.correlationId == input.correlationId
            && (input.maxAttempts == None ==> r.maxAttempts == 5)
            && (input.maxAttempts.Some? ==> r.maxAttempts == input.maxAttempts.value)
  {
  }

  datatype OutboxEventInput = OutboxEventInput(
    eventType: string, payload: Json, correlationId: Option<string>, maxAttempts: Option<int>)

  /** A row of the messages table, as the handler writes it. */
  datatype MessageRow = MessageRow(title: string, content: string, sender: string)

  function RecordOf(input: OutboxEventInput, id: string): EventRecord {
    EventRecord(Some(id), input.eventType, input.payload, input.correlationId,
                if input.maxAttempts.Some? then input.maxAttempts.value else DEFAULT_MAX_ATTEMPTS)
  }

  function Records(inputs: seq<OutboxEventInput>, ids: seq<string>): seq<EventRecord>
    requires |inputs| <= |ids|
  {
    seq(|inputs|, i requires 0 <= i < |inputs| => RecordOf(inputs[i], ids[i]))
  }

  /** What goes wrong during one transaction. `begin` covers connecting; `outbox` maps the
      index of an outbox insert to its exception; `duplicateRollback` is the rollback on the
      duplicate path, `rollback` the one on the error path. */
  datatype TxFaults = TxFaults(
    begin: Option<Thrown>,
    ledger: Option<Thrown>,
    duplicateRollback: Option<Thrown>,
    work: Option<Thrown>,
    outbox: map<nat, Thrown>,
    commit: Reply,
    rollback: Option<Thrown>,
    release: Option<Thrown>)

  datatype TxResult = First | Duplicate | Threw(err: Thrown)

  /** The first outbox insert that throws. */
  function FirstFault(outbox: map<nat, Thrown>, n: nat): Option<Thrown> {
    if n == 0 then None
    else if FirstFault(outbox, n - 1).Some? then FirstFault(outbox, n - 1)
    else if n - 1 in outbox then Some(outbox[n - 1]) else None
  }

  /** The ledger insert reports the event id as taken. */
  predicate ReportsTaken(processed: multiset<EventId>, e: EventId, f: TxFaults) {
    if f.ledger.Some? then IsUniqueViolation(f.ledger.value) else e in processed
  }

  /** Every write of the transaction goes through. */
  predicate WritesAll(processed: multiset<EventId>, e: EventId, n: nat, f: TxFaults) {
    f.begin.None? && f.ledger.None? && e !in processed && f.work.None? && FirstFault(f.outbox, n).None?
  }

  predicate Commits(processed: multiset<EventId>, e: EventId, n: nat, f: TxFaults) {
    WritesAll(processed, e, n, f) && (f.commit.Lost? ==> f.commit.tookEffect)
  }

  /** The exception the body of the transaction raises, if any. */
  function Raised(processed: multiset<EventId>, e: EventId, n: nat, f: TxFaults): Option<Thrown> {
    if ReportsTaken(processed, e, f) then f.duplicateRollback
    else if f.ledger.Some? then f.ledger
    else if f.work.Some? then f.work
    else if FirstFault(f.outbox, n).Some? then FirstFault(f.outbox, n)
    else if f.commit.Lost? then Some(f.commit.err)
    else None
  }

  /** A rollback that throws replaces the exception, and a release that throws replaces
      everything, a committed result included. */
  function ResultOf(processed: multiset<EventId>, e: EventId, n: nat, f: TxFaults): TxResult {
    if f.begin.Some? then Threw(f.begin.value)
    else if f.release.Some? then Threw(f.release.value)
    else
      var raised := Raised(processed, e, n, f);
      if raised.Some? then Threw(if f.rollback.Some? then f.rollback.value else raised.value)
      else if ReportsTaken(processed, e, f) then Duplicate
      else First
  }

  /** All or nothing: ledger row, message and one outbox row per event, or no change. */
  function DbAfterTx(db: Db, e: EventId, n: nat, f: TxFaults): Db {
    if Commits(db.processed, e, n, f)
    then db.(processed := db.processed + multiset{e}, messages := db.messages + multiset{e},
             persisted := db.persisted + multiset{}[e := n])
    else db
  }

  /** A first result means committed, a duplicate result means nothing written, and no result
      at all leaves both open. */
  lemma ResultTellsEffect(db: Db, e: EventId, n: nat, f: TxFaults)
    ensures ResultOf(db.processed, e, n, f).First? ==>
              Commits(db.processed, e, n, f) && e in DbAfterTx(db, e, n, f).processed && e !in db.processed
    ensures ResultOf(db.processed, e, n, f).Duplicate? ==> DbAfterTx(db, e, n, f) == db
    ensures Commits(db.processed, e, n, f) && !ResultOf(db.processed, e, n, f).First? <==>
            WritesAll(db.processed, e, n, f)
            && (f.commit.Lost? ==> f.commit.tookEffect) && (f.release.Some? || f.commit.Lost?)
  {
  }

  lemma {:induction false} FirstFaultIsFirst(outbox: map<nat, Thrown>, n: nat, err: Thrown)
    ensures FirstFault(outbox, n) == Some(err) <==>
            exists i :: 0 <= i < n && i in outbox && outbox[i] == err && forall j | 0 <= j < i :: j !in outbox
    ensures FirstFault(outbox, n).None? <==> forall i | 0 <= i < n :: i !in outbox
  {
    if n > 0 {
      FirstFaultIsFirst(outbox, n - 1, err);
    }
  }

  /** The three tables gain their rows exactly if every statement goes through, and the commit
      is answered or took effect without an answer. */
  lemma CommitsExactly(processed: multiset<EventId>, e: EventId, n: nat, f: TxFaults)
    ensures Commits(processed, e, n, f) <==>
            && f.begin == None && f.ledger == None && e !in processed && f.work == None
            && (forall i | 0 <= i < n :: i !in f.outbox)
            && (f.commit == Answered || (f.commit.Lost? && f.commit.tookEffect))
  {
    FirstFaultIsFirst(f.outbox, n, UNIQUE_VIOLATION);
  }

  /** Some statement inside the transaction raises, `duplicate` apart: `err` is what it raises,
      and everything before it went through. */
  ghost predicate RaisesInside(processed: multiset<EventId>, e: EventId, n: nat, f: TxFaults, err: Thrown) {
    || (f.ledger == Some(err) && !IsUniqueViolation(err))
    || (TakenReported(processed, e, f) && f.duplicateRollback == Some(err))
    || (Inserted(processed, e, f) && f.work == Some(err))
    || (Inserted(processed, e, f) && f.work == None
        && exists i :: 0 <= i < n && i in f.outbox && f.outbox[i] == err && forall j | 0 <= j < i :: j !in f.outbox)
    || (Inserted(processed, e, f) && f.work == None && (forall i | 0 <= i < n :: i !in f.outbox)
        && f.commit.Lost? && f.commit.err == err)
  }

  /** The ledger insert hits the unique constraint. */
  predicate TakenReported(processed: multiset<EventId>, e: EventId, f: TxFaults) {
    (f.ledger == None && e in processed) || (f.ledger.Some? && IsUniqueViolation(f.ledger.value))
  }

  predicate Inserted(processed: multiset<EventId>, e: EventId, f: TxFaults) {
    f.ledger == None && e !in processed
  }

  /** Which exception comes out, for every combination of faults: opening the transaction first;
      then a failing release, which replaces everything; then a failing rollback in place of
      what was raised inside; then that itself. Otherwise the result is `duplicate` exactly
      when the insert hits the unique constraint. */
  lemma ResultExactly(processed: multiset<EventId>, e: EventId, n: nat, f: TxFaults, err: Thrown)
    ensures f.begin.Some? ==> ResultOf(processed, e, n, f) == Threw(f.begin.value)
    ensures f.begin == None && f.release.Some? ==> ResultOf(processed, e, n, f) == Threw(f.release.value)
    ensures f.begin == None && f.release == None && RaisesInside(processed, e, n, f, err) ==>
              ResultOf(processed, e, n, f) == Threw(if f.rollback.Some? then f.rollback.value else err)
    ensures f.begin == None && f.release == None && ResultOf(processed, e, n, f).Threw? ==>
              exists inside :: RaisesInside(processed, e, n, f, inside)
    ensures ResultOf(processed, e, n, f) == Duplicate <==>
            f.begin == None && f.release == None && TakenReported(processed, e, f) && f.duplicateRollback == None
    ensures ResultOf(processed, e, n, f) == First <==>
            && f.begin == None && f.release == None && Inserted(processed, e, f) && f.work == None
            && (forall i | 0 <= i < n :: i !in f.outbox) && f.commit == Answered
  {
    FirstFaultIsFirst(f.outbox, n, err);
    var raised := Raised(processed, e, n, f);
    if raised.Some? {
      FirstFaultIsFirst(f.outbox, n, raised.value);
      assert RaisesInside(processed, e, n, f, raised.value);
    }
  }

  lemma CountUpIs(counts: map<EventId, nat>, e: EventId)
    ensures CountUp(counts, e) == if e in counts then counts[e := counts[e] + 1] else counts[e := 1]
  {
  }

  class Database {
    var processed: multiset<EventId>
    var messages: multiset<EventId>
    var persisted: multiset<EventId>
    var stored: seq<MessageRow>
    var outbox: seq<EventRecord>
    var attempts: map<EventId, nat>

    function View(): Db
      reads this
    {
      Db(processed, messages, persisted, attempts)
    }
  }

  class RetryAttemptTracker {
    const store: Database

    constructor (store: Database)
      ensures this.store == store
    {
      this.store := store;
    }

    /** Insert or increment, and return the new count, in one statement. */
    method RecordAttempt(e: EventId, reply: Reply) returns (count: Option<nat>)
      modifies store`attempts
      ensures store.attempts ==
              if reply.Lost? && !reply.tookEffect then old(store.attempts)
              else if e in old(store.attempts) then old(store.attempts)[e := old(store.attempts)[e] + 1]
              else old(store.attempts)[e := 1]
      ensures reply == Answered ==> count == Some(store.attempts[e])
      ensures reply != Answered ==> count == None
    {
      if reply.Lost? && !reply.tookEffect {
        return None;
      }
      if e in store.attempts {
        store.attempts := store.attempts[e := store.attempts[e] + 1];
      } else {
        store.attempts := store.attempts[e := 1];
      }
      count := if reply.Answered? then Some(store.attempts[e]) else None;
    }

    method GetAttemptCount(e: EventId) returns (n: nat)
      ensures e in store.attempts ==> n == store.attempts[e]
      ensures e !in store.attempts ==> n == 0
    {
      n := if e in store.attempts then store.attempts[e] else 0;
    }

    /** If it returns, the event has no counter any more; other events keep theirs in any case,
        and an event without one is no error. */
    method ClearAttempts(e: EventId, reply: Reply) returns (err: Option<Thrown>)
      modifies store`attempts
      ensures store.attempts == old(store.attempts) || store.attempts == old(store.attempts) - {e}
      ensures e in store.attempts <==> e in old(store.attempts) && reply.Lost? && !reply.tookEffect
      ensures forall other | other != e ::
                && (other in store.attempts <==> other in old(store.attempts))
                && (other in store.attempts ==> store.attempts[other] == old(store.attempts)[other])
      ensures err.None? ==> e !in store.attempts
      ensures if reply.Lost? then err == Some(reply.err) else err.None?
    {
      if reply.Answered? || reply.tookEffect {
        store.attempts := store.attempts - {e};
      }
      err := if reply.Lost? then Some(reply.err) else None;
    }
  }

  /** One connection with at most one open transaction. */
  class QueryRunner {
    const store: Database
    var open: bool
    var tx: Tx
    var written: seq<MessageRow>
    var rows: seq<EventRecord>

    constructor (store: Database)
      ensures this.store == store && !open
    {
      this.store := store;
      open := false;
      tx := EMPTY_TX;
      written, rows := [], [];
    }

    method StartTransaction(fault: Option<Thrown>) returns (err: Option<Thrown>)
      modifies this
      ensures err == fault
      ensures fault.None? ==> open && tx == EMPTY_TX && written == [] && rows == []
    {
      if fault.None? {
        open, tx, written, rows := true, EMPTY_TX, [], [];
      }
      err := fault;
    }

    /** UNIQUE(event_id) against the committed ledger. */
    method SaveLedger(e: EventId, fault: Option<Thrown>) returns (err: Option<Thrown>)
      requires open
      modifies this`tx
      ensures err == if fault.Some? then fault else if e in store.processed then Some(UNIQUE_VIOLATION) else None
      ensures tx == if err.None? then old(tx).(ledger := old(tx).ledger + multiset{e}) else old(tx)
    {
      if fault.Some? {
        return fault;
      }
      if e in store.processed {
        return Some(UNIQUE_VIOLATION);
      }
      tx := tx.(ledger := tx.ledger + multiset{e});
      err := None;
    }

    /** The business write of the handler. */
    method SaveMessage(e: EventId, message: MessageRow, fault: Option<Thrown>) returns (err: Option<Thrown>)
      requires open
      modifies this`tx, this`written
      ensures err == fault
      ensures written == if err.None? then old(written) + [message] else old(written)
      ensures tx == if err.None? then old(tx).(messages := old(tx).messages + multiset{e}) else old(tx)
    {
      if fault.None? {
        tx := tx.(messages := tx.messages + multiset{e});
        written := written + [message];
      }
      err := fault;
    }

    method SaveOutboxRow(e: EventId, row: EventRecord, fault: Option<Thrown>) returns (err: Option<Thrown>)
      requires open
      modifies this`tx, this`rows
      ensures err == fault
      ensures tx == if err.None? then old(tx).(outbox := old(tx).outbox + multiset{e}) else old(tx)
      ensures rows == if err.None? then old(rows) + [row] else old(rows)
    {
      if fault.None? {
        tx := tx.(outbox := tx.outbox + multiset{e});
        rows := rows + [row];
      }
      err := fault;
    }

    method Commit(reply: Reply) returns (err: Option<Thrown>)
      requires open
      modifies this`open, store
      ensures err == if reply.Lost? then Some(reply.err) else None
      ensures var done := reply.Lost? ==> reply.tookEffect;
              && store.processed == old(store.processed) + (if done then tx.ledger else multiset{})
              && store.messages == old(store.messages) + (if done then tx.messages else multiset{})
              && store.persisted == old(store.persisted) + (if done then tx.outbox else multiset{})
              && store.stored == old(store.stored) + (if done then written else [])
              && store.outbox == old(store.outbox) + (if done then rows else [])
      ensures store.attempts == old(store.attempts)
    {
      if reply.Answered? || reply.tookEffect {
        store.processed := store.processed + tx.ledger;
        store.messages := store.messages + tx.messages;
        store.persisted := store.persisted + tx.outbox;
        store.stored := store.stored + written;
        store.outbox := store.outbox + rows;
      }
      open := false;
      err := if reply.Lost? then Some(reply.err) else None;
    }

    /** Discards what the transaction wrote; without an open one there is nothing to discard. */
    method Rollback(fault: Option<Thrown>) returns (err: Option<Thrown>)
      modifies this
      ensures err == fault && !open && tx == EMPTY_TX && written == [] && rows == []
    {
      open, tx, written, rows := false, EMPTY_TX, [], [];
      err := fault;
    }
  }

  class OutboxTransaction {
    const store: Database

    constructor (store: Database)
      ensures this.store == store
    {
      this.store := store;
    }

    /** Inserts the rows one by one and stops at the first that throws. */
    method InsertOutboxEvents(qr: QueryRunner, e: EventId, events: seq<OutboxEventInput>, ids: seq<string>,
                              faults: map<nat, Thrown>)
      returns (err: Option<Thrown>)
      requires qr.open && |events| <= |ids| && qr.tx.outbox == multiset{} && qr.rows == []
      modifies qr`tx, qr`rows
      ensures err == FirstFault(faults, |events|)
      ensures qr.tx.ledger == old(qr.tx.ledger) && qr.tx.messages == old(qr.tx.messages)
      ensures err.None? ==> qr.tx.outbox == multiset{}[e := |events|] && qr.rows == Records(events, ids)
      ensures err.None? ==> |qr.rows| == |events| && forall i | 0 <= i < |events| :: qr.rows[i] == RecordOf(events[i], ids[i])
    {
      var i := 0;
      while i < |events|
        invariant i <= |events| && FirstFault(faults, i).None?
        invariant qr.tx == old(qr.tx).(outbox := multiset{}[e := i])
        invariant qr.rows == Records(events[..i], ids)
      {
        var fault := if i in faults then Some(faults[i]) else None;
        err := qr.SaveOutboxRow(e, RecordOf(events[i], ids[i]), fault);
        i := i + 1;
        if err.Some? {
          StopsAtFirst(faults, i, |events|);
          return;
        }
      }
      assert events[..i] == events;
      err := None;
    }

    method RunIdempotentWithOutboxEvents(e: EventId, message: MessageRow, events: seq<OutboxEventInput>, ids: seq<string>,
        f: TxFaults)
      returns (result: TxResult)
      requires |events| <= |ids|
      modifies store
      ensures store.View() == DbAfterTx(old(store.View()), e, |events|, f)
      ensures store.outbox ==
              old(store.outbox) + (if Commits(old(store.processed), e, |events|, f) then Records(events, ids) else [])
      ensures store.stored ==
              old(store.stored) + (if Commits(old(store.processed), e, |events|, f) then [message] else [])
      ensures result == ResultOf(old(store.processed), e, |events|, f)
    {
      var qr := new QueryRunner(store);
      var err := qr.StartTransaction(f.begin);
      if err.Some? {
        return Threw(err.value);
      }
      result := WithinTransaction(qr, e, message, events, ids, f);
      if result.Threw? && f.rollback.Some? {
        result := Threw(f.rollback.value);
      }
      if f.release.Some? {
        result := Threw(f.release.value);
      }
    }

    /** The body of the outer try, with its rollback. */
    method WithinTransaction(qr: QueryRunner, e: EventId, message: MessageRow, events: seq<OutboxEventInput>, ids: seq<string>,
        f: TxFaults)
      returns (result: TxResult)
      requires qr.store == store && qr.open && qr.tx == EMPTY_TX && qr.written == [] && qr.rows == [] && |events| <= |ids|
      requires f.begin.None?
      modifies qr, store
      ensures store.View() == DbAfterTx(old(store.View()), e, |events|, f)
      ensures store.outbox ==
              old(store.outbox) + (if Commits(old(store.processed), e, |events|, f) then Records(events, ids) else [])
      ensures store.stored ==
              old(store.stored) + (if Commits(old(store.processed), e, |events|, f) then [message] else [])
      ensures var raised := Raised(old(store.processed), e, |events|, f);
              result == if raised.Some? then Threw(raised.value)
                        else if ReportsTaken(old(store.processed), e, f) then Duplicate else First
    {
      var err := qr.SaveLedger(e, f.ledger);
      if err.Some? && IsUniqueViolation(err.value) {
        err := qr.Rollback(f.duplicateRollback);
        if err.None? {
          return Duplicate;
        }
      }
      if err.None? {
        err := WorkAndCommit(qr, e, message, events, ids, f);
      }
      if err.Some? {
        var _ := qr.Rollback(f.rollback);
        return Threw(err.value);
      }
      result := First;
    }

    /** Message, outbox rows and commit, once the ledger row is in the transaction. */
    method WorkAndCommit(qr: QueryRunner, e: EventId, message: MessageRow, events: seq<OutboxEventInput>, ids: seq<string>,
        f: TxFaults)
      returns (err: Option<Thrown>)
      requires qr.store == store && qr.open && qr.tx == EMPTY_TX.(ledger := multiset{e})
      requires qr.written == [] && qr.rows == []
      requires |events| <= |ids| && f.begin.None? && f.ledger.None? && e !in store.processed
      modifies qr, store
      ensures store.View() == DbAfterTx(old(store.View()), e, |events|, f)
      ensures store.outbox ==
              old(store.outbox) + (if Commits(old(store.processed), e, |events|, f) then Records(events, ids) else [])
      ensures store.stored ==
              old(store.stored) + (if Commits(old(store.processed), e, |events|, f) then [message] else [])
      ensures err == Raised(old(store.processed), e, |events|, f)
    {
      err := qr.SaveMessage(e, message, f.work);
      if err.Some? {
        return;
      }
      assert qr.tx.messages == multiset{e};
      err := InsertOutboxEvents(qr, e, events, ids, f.outbox);
      if err.Some? {
        return;
      }
      err := qr.Commit(f.commit);
    }
  }

  lemma {:induction false} StopsAtFirst(faults: map<nat, Thrown>, i: nat, n: nat)
    requires i <= n && FirstFault(faults, i).Some?
    ensures FirstFault(faults, n) == FirstFault(faults, i)
  {
    if i < n {
      StopsAtFirst(faults, i, n - 1);
    }
  }
}
