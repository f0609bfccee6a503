/** The subscriber to event-lifecycle records: a log of what arrived and a list of waiters,
    each of which must end up with the first record in the log it asked for. */
module LifecycleSubscriber {
  import opened Wrappers
  import opened Json
  import opened SchemaVersion

  type WaiterId = nat

  datatype Waiter = Waiter(id: WaiterId, eventId: string, stage: string)

  /** How the promise of one `waitFor` call stands. `Threw`: looking through the log raised.
      `Abandoned`: its timer took the waiter off the list and then raised while composing the
      timeout message, so that the promise is never settled. */
  datatype Outcome = Waiting | Resolved(record: Json) | TimedOut | Abandoned | Threw

  /** The predicate of a waiter; on a literal null record, evaluating it raises instead. */
  predicate Matches(w: Waiter, record: Json) {
    FieldOf(record, "eventId") == Some(JStr(w.eventId)) && FieldOf(record, "stage") == Some(JStr(w.stage))
  }

  /** The first record of the log that matches. */
  function FirstMatch(log: seq<Json>, w: Waiter): Option<Json> {
    if log == [] then None
    else if Matches(w, log[0]) then Some(log[0])
    else FirstMatch(log[1..], w)
  }

  /** The list without the waiters a record satisfies, in the same order. */
  function Unmatched(waiters: seq<Waiter>, record: Json): seq<Waiter> {
    if waiters == [] then []
    else (if Matches(waiters[0], record) then [] else [waiters[0]]) + Unmatched(waiters[1..], record)
  }

  /** `log.find(predicate)` meets a null record before a match. */
  predicate FindRaises(log: seq<Json>, w: Waiter) {
    log != [] && (log[0].JNull? || (!Matches(w, log[0]) && FindRaises(log[1..], w)))
  }

  // ---- The plain meaning of these functions ----

  lemma {:induction false} FirstMatchIsEarliest(log: seq<Json>, w: Waiter, r: Json)
    ensures FirstMatch(log, w) == Some(r) <==>
            exists i :: 0 <= i < |log| && log[i] == r && Matches(w, log[i]) && forall j | 0 <= j < i :: !Matches(w, log[j])
  {
    if log != [] && !Matches(w, log[0]) {
      var rest := log[1..];
      FirstMatchIsEarliest(rest, w, r);
      if FirstMatch(rest, w) == Some(r) {
        var i :| 0 <= i < |rest| && rest[i] == r && Matches(w, rest[i]) && forall j | 0 <= j < i :: !Matches(w, rest[j]);
        assert log[i + 1] == rest[i];
        assert forall j | 0 < j < i + 1 :: log[j] == rest[j - 1];
      }
      if i :| 0 <= i < |log| && log[i] == r && Matches(w, log[i]) && forall j | 0 <= j < i :: !Matches(w, log[j]) {
        assert rest[i - 1] == log[i];
        assert forall j | 0 <= j < i - 1 :: rest[j] == log[j + 1];
      }
    }
  }

  lemma {:induction false} NoMatch(log: seq<Json>, w: Waiter)
    ensures FirstMatch(log, w).None? <==> forall i | 0 <= i < |log| :: !Matches(w, log[i])
  {
    if log != [] {
      NoMatch(log[1..], w);
      assert forall i | 0 <= i < |log| - 1 :: log[1..][i] == log[i + 1];
    }
  }

  /** A longer log has the same first match, or its first match is in what was added. */
  lemma {:induction false} FirstMatchGrows(log: seq<Json>, more: seq<Json>, w: Waiter)
    ensures FirstMatch(log + more, w) == if FirstMatch(log, w).Some? then FirstMatch(log, w) else FirstMatch(more, w)
  {
    if log == [] {
      assert log + more == more;
    } else {
      FirstMatchGrows(log[1..], more, w);
      assert (log + more)[1..] == log[1..] + more;
    }
  }

  /** Looking through the log raises exactly when a null record comes before every match. */
  lemma {:induction false} FindRaisesExactly(log: seq<Json>, w: Waiter)
    ensures FindRaises(log, w) <==>
            exists i :: 0 <= i < |log| && log[i].JNull? && forall j | 0 <= j < i :: !Matches(w, log[j])
  {
    if log != [] {
      var rest := log[1..];
      FindRaisesExactly(rest, w);
      if FindRaises(log, w) && !log[0].JNull? {
        var i :| 0 <= i < |rest| && rest[i].JNull? && forall j | 0 <= j < i :: !Matches(w, rest[j]);
        assert log[i + 1].JNull?;
        assert forall j | 0 < j < i + 1 :: log[j] == rest[j - 1];
      }
      if i :| 0 <= i < |log| && log[i].JNull? && forall j | 0 <= j < i :: !Matches(w, log[j]) {
        if i > 0 {
          assert rest[i - 1].JNull?;
          assert forall j | 0 <= j < i - 1 :: rest[j] == log[j + 1];
        }
      }
    }
  }

  /** The filter keeps exactly the waiters that do not match. */
  lemma {:induction false} UnmatchedKeeps(waiters: seq<Waiter>, record: Json)
    ensures forall w :: w in Unmatched(waiters, record) <==> w in waiters && !Matches(w, record)
  {
    if waiters != [] {
      UnmatchedKeeps(waiters[1..], record);
      assert waiters == [waiters[0]] + waiters[1..];
    }
  }

  lemma SplitHead(head: seq<Waiter>, a: seq<Waiter>, b: seq<Waiter>)
    ensures head + (a + b) == (head + a) + b
  {
  }

  /** It works part by part, so it keeps their order. */
  lemma {:induction false} UnmatchedInParts(front: seq<Waiter>, back: seq<Waiter>, record: Json)
    ensures Unmatched(front + back, record) == Unmatched(front, record) + Unmatched(back, record)
  {
    if front == [] {
      assert front + back == back;
    } else {
      UnmatchedInParts(front[1..], back, record);
      assert (front + back)[1..] == front[1..] + back && (front + back)[0] == front[0];
      var head := if Matches(front[0], record) then [] else [front[0]];
      assert Unmatched(front + back, record) == head + Unmatched(front[1..] + back, record);
      SplitHead(head, Unmatched(front[1..], record), Unmatched(back, record));
    }
  }

  lemma {:induction false} FindRaisesStays(log: seq<Json>, more: seq<Json>, w: Waiter)
    requires FindRaises(log, w)
    ensures FindRaises(log + more, w)
  {
    assert (log + more)[1..] == log[1..] + more;
    if !log[0].JNull? {
      FindRaisesStays(log[1..], more, w);
    }
  }

  ghost predicate DistinctIds(waiters: seq<Waiter>) {
    forall i, j | 0 <= i < j < |waiters| :: waiters[i].id != waiters[j].id
  }

  lemma {:induction false} UnmatchedDistinct(waiters: seq<Waiter>, record: Json)
    requires DistinctIds(waiters)
    ensures DistinctIds(Unmatched(waiters, record))
  {
    if waiters != [] {
      UnmatchedDistinct(waiters[1..], record);
      UnmatchedKeeps(waiters[1..], record);
      var rest := Unmatched(waiters[1..], record);
      forall j | 0 <= j < |rest| ensures rest[j].id != waiters[0].id {
        assert rest[j] in rest;
        var k :| 0 <= k < |waiters| - 1 && waiters[1..][k] == rest[j];
        assert waiters[k + 1] == rest[j];
      }
    }
  }

  /** The calls whose waiters a record satisfies are resolved with it, the others are not touched. */
  function Notified(outcomes: map<WaiterId, Outcome>, waiters: seq<Waiter>, record: Json): map<WaiterId, Outcome> {
    map id | id in outcomes ::
      if Wakes(waiters, id, record) then Resolved(record) else outcomes[id]
  }

  predicate Wakes(waiters: seq<Waiter>, id: WaiterId, record: Json) {
    exists w :: w in waiters && w.id == id && Matches(w, record)
  }

  ghost predicate Known(waiters: seq<Waiter>, outcomes: map<WaiterId, Outcome>) {
    forall w | w in waiters :: w.id in outcomes
  }

  lemma NotifiedNext(outcomes: map<WaiterId, Outcome>, w: Waiter, rest: seq<Waiter>, record: Json)
    requires w.id in outcomes
    ensures Notified(outcomes, [w] + rest, record) ==
            if Matches(w, record) then Notified(outcomes, rest, record)[w.id := Resolved(record)]
            else Notified(outcomes, rest, record)
  {
    assert forall v :: v in [w] + rest <==> v == w || v in rest;
    forall id ensures Wakes([w] + rest, id, record) <==> (id == w.id && Matches(w, record)) || Wakes(rest, id, record) {
      if id == w.id && Matches(w, record) {
        assert w in [w] + rest;
      }
    }
  }

  lemma NobodyMatchesNull(waiters: seq<Waiter>)
    ensures Unmatched(waiters, JNull) == waiters
  {
  }

  /** Promises are settled at most once. */
  ghost predicate SettledStay(before: map<WaiterId, Outcome>, after: map<WaiterId, Outcome>) {
    forall id | id in before && !before[id].Waiting? :: id in after && after[id] == before[id]
  }

  /** What a timer makes of a call that is still waiting: the timeout message lists the event id
      and stage of every record, which raises on a null one. */
  function TimerOutcome(log: seq<Json>): Outcome {
    if JNull in log then Abandoned else TimedOut
  }

  /** What the outcome of one call says about the log and the list of waiters. `expired` is
      the length of the log when a call's timer fired. */
  ghost predicate CallFits(log: seq<Json>, waiters: seq<Waiter>, w: Waiter, o: Outcome, expired: map<WaiterId, nat>) {
    && (o.Waiting? <==> w in waiters)
    && match o
       case Waiting => FirstMatch(log, w).None?
       case Resolved(r) => FirstMatch(log, w) == Some(r)
       case TimedOut => ExpiredAt(log, w, expired) && JNull !in log[..expired[w.id]]
       case Abandoned => ExpiredAt(log, w, expired) && JNull in log[..expired[w.id]]
       case Threw => FindRaises(log, w)
  }

  /** The timer of the call has fired, with no match in the log at that time. */
  ghost predicate ExpiredAt(log: seq<Json>, w: Waiter, expired: map<WaiterId, nat>) {
    w.id in expired && expired[w.id] <= |log| && FirstMatch(log[..expired[w.id]], w).None?
  }

  /** No registered waiter matches anything observed; who is registered is still waiting and
      nobody else is; a resolved call has the first match of the log; one whose timer fired had
      no match then, and was rejected if no record up to then was null and abandoned otherwise.
      `asked` is what each call asked for. */
  ghost predicate Consistent(log: seq<Json>, waiters: seq<Waiter>, outcomes: map<WaiterId, Outcome>,
                             asked: map<WaiterId, Waiter>, expired: map<WaiterId, nat>) {
    && DistinctIds(waiters)
    && asked.Keys == outcomes.Keys
    && (forall w | w in waiters :: w.id in asked && asked[w.id] == w)
    && (forall id | id in outcomes :: asked[id].id == id && CallFits(log, waiters, asked[id], outcomes[id], expired))
  }

  /** A record of the event at the stage, field by field. */
  predicate IsRecordOf(record: Json, eventId: string, stage: string) {
    record.JObj? && "eventId" in record.fields && record.fields["eventId"] == JStr(eventId)
    && "stage" in record.fields && record.fields["stage"] == JStr(stage)
  }

  lemma MatchesExactly(w: Waiter, record: Json)
    ensures Matches(w, record) <==>
            FieldOf(record, "eventId") == Some(JStr(w.eventId)) && FieldOf(record, "stage") == Some(JStr(w.stage))
    ensures Matches(w, record) <==> IsRecordOf(record, w.eventId, w.stage)
  {
  }

  /** Every resolved call holds the earliest record with its event id and its stage, in arrival
      order, and no record so far has those of a registered waiter. */
  lemma AgreesWithLog(log: seq<Json>, waiters: seq<Waiter>, outcomes: map<WaiterId, Outcome>,
                      asked: map<WaiterId, Waiter>, expired: map<WaiterId, nat>)
    requires Consistent(log, waiters, outcomes, asked, expired)
    ensures forall w, i | w in waiters && 0 <= i < |log| :: !IsRecordOf(log[i], w.eventId, w.stage)
    ensures forall id | id in outcomes && outcomes[id].Resolved? ::
              IsFirst(log, outcomes[id].record, asked[id].eventId, asked[id].stage)
  {
    forall w, i | w in waiters && 0 <= i < |log| ensures !IsRecordOf(log[i], w.eventId, w.stage) {
      assert CallFits(log, waiters, asked[w.id], outcomes[w.id], expired);
      NoMatch(log, w);
      MatchesExactly(w, log[i]);
    }
    forall id | id in outcomes && outcomes[id].Resolved?
      ensures IsFirst(log, outcomes[id].record, asked[id].eventId, asked[id].stage)
    {
      assert CallFits(log, waiters, asked[id], outcomes[id], expired);
      FoundIsFirst(log, asked[id], outcomes[id].record);
    }
  }

  /** `r` is in the log, is of the event at the stage, and no earlier record is. */
  ghost predicate IsFirst(log: seq<Json>, r: Json, eventId: string, stage: string) {
    exists i :: 0 <= i < |log| && log[i] == r && IsRecordOf(r, eventId, stage)
      && forall j | 0 <= j < i :: !IsRecordOf(log[j], eventId, stage)
  }

  lemma FoundIsFirst(log: seq<Json>, w: Waiter, r: Json)
    requires FirstMatch(log, w) == Some(r)
    ensures IsFirst(log, r, w.eventId, w.stage)
  {
    FirstMatchIsEarliest(log, w, r);
    var i :| 0 <= i < |log| && log[i] == r && Matches(w, log[i]) && forall j | 0 <= j < i :: !Matches(w, log[j]);
    MatchesExactly(w, r);
    forall j | 0 <= j < i ensures !IsRecordOf(log[j], w.eventId, w.stage) {
      MatchesExactly(w, log[j]);
    }
  }

  /** How a call stands at once, in the fields of the records: it is resolved with the first
      record of its event at its stage if no null record precedes that, and registered exactly
      if the log has neither such a record nor a null one. */
  lemma LookedExactly(log: seq<Json>, w: Waiter)
    ensures Looked(log, w).Resolved? ==> IsFirst(log, Looked(log, w).record, w.eventId, w.stage)
    ensures Looked(log, w) == Waiting <==>
            forall i | 0 <= i < |log| :: log[i] != JNull && !IsRecordOf(log[i], w.eventId, w.stage)
    ensures Looked(log, w) == Threw <==>
            exists i :: 0 <= i < |log| && log[i] == JNull && forall j | 0 <= j < i :: !IsRecordOf(log[j], w.eventId, w.stage)
    ensures Looked(log, w) in {Waiting, Threw} || Looked(log, w).Resolved?
  {
    FindRaisesExactly(log, w);
    NoMatch(log, w);
    forall i | 0 <= i < |log| ensures Matches(w, log[i]) <==> IsRecordOf(log[i], w.eventId, w.stage) {
      MatchesExactly(w, log[i]);
    }
    if Looked(log, w).Resolved? {
      FoundIsFirst(log, w, Looked(log, w).record);
    }
  }

  /** What a message does to a call, in the fields of the record. */
  lemma NotifiedExactly(outcomes: map<WaiterId, Outcome>, waiters: seq<Waiter>, record: Json, id: WaiterId)
    requires id in outcomes
    ensures Notified(outcomes, waiters, record)[id] ==
            if exists w :: w in waiters && w.id == id && IsRecordOf(record, w.eventId, w.stage) then Resolved(record) else outcomes[id]
  {
    forall w | w in waiters ensures Matches(w, record) <==> IsRecordOf(record, w.eventId, w.stage) {
      MatchesExactly(w, record);
    }
  }

  /** And to the list of waiters. */
  lemma UnmatchedExactly(waiters: seq<Waiter>, record: Json)
    ensures forall w :: w in Unmatched(waiters, record) <==> w in waiters && !IsRecordOf(record, w.eventId, w.stage)
  {
    UnmatchedKeeps(waiters, record);
    forall w | w in waiters ensures Matches(w, record) <==> IsRecordOf(record, w.eventId, w.stage) {
      MatchesExactly(w, record);
    }
  }

  lemma CallAfterMessage(log: seq<Json>, waiters: seq<Waiter>, w: Waiter, o: Outcome, expired: map<WaiterId, nat>, record: Json)
    requires CallFits(log, waiters, w, o, expired)
    ensures CallFits(log + [record], Unmatched(waiters, record), w,
                     if w in waiters && Matches(w, record) then Resolved(record) else o, expired)
  {
    UnmatchedKeeps(waiters, record);
    FirstMatchGrows(log, [record], w);
    match o {
      case TimedOut => assert (log + [record])[..expired[w.id]] == log[..expired[w.id]];
      case Abandoned => assert (log + [record])[..expired[w.id]] == log[..expired[w.id]];
      case Threw => FindRaisesStays(log, [record], w);
      case _ =>
    }
  }

  /** A message keeps the subscriber consistent: it resolves exactly the waiters it matches. */
  lemma ConsistentAfterMessage(log: seq<Json>, waiters: seq<Waiter>, outcomes: map<WaiterId, Outcome>,
                               asked: map<WaiterId, Waiter>, expired: map<WaiterId, nat>, record: Json)
    requires Consistent(log, waiters, outcomes, asked, expired)
    ensures Consistent(log + [record], Unmatched(waiters, record), Notified(outcomes, waiters, record), asked, expired)
    ensures SettledStay(outcomes, Notified(outcomes, waiters, record))
    ensures Notified(outcomes, waiters, record).Keys == outcomes.Keys && Known(waiters, outcomes)
  {
    UnmatchedDistinct(waiters, record);
    UnmatchedKeeps(waiters, record);
    var after := Notified(outcomes, waiters, record);
    forall id | id in outcomes
      ensures after[id] == if asked[id] in waiters && Matches(asked[id], record) then Resolved(record) else outcomes[id]
      ensures CallFits(log + [record], Unmatched(waiters, record), asked[id], after[id], expired)
    {
      CallAfterMessage(log, waiters, asked[id], outcomes[id], expired, record);
    }
  }

  /** A registered waiter goes, and its call is resolved, exactly if the record is of its event at
      its stage. */
  lemma MessageSettles(log: seq<Json>, waiters: seq<Waiter>, outcomes: map<WaiterId, Outcome>,
                       asked: map<WaiterId, Waiter>, expired: map<WaiterId, nat>, record: Json)
    requires Consistent(log, waiters, outcomes, asked, expired)
    ensures forall w | w in waiters ::
              && (w in Unmatched(waiters, record) <==> !IsRecordOf(record, w.eventId, w.stage))
              && w.id in outcomes
              && Notified(outcomes, waiters, record)[w.id] ==
                 if IsRecordOf(record, w.eventId, w.stage) then Resolved(record) else Waiting
  {
    UnmatchedExactly(waiters, record);
    forall w | w in waiters
      ensures w.id in outcomes && Notified(outcomes, waiters, record)[w.id] ==
              if IsRecordOf(record, w.eventId, w.stage) then Resolved(record) else Waiting
    {
      assert CallFits(log, waiters, asked[w.id], outcomes[w.id], expired);
      NotifiedExactly(outcomes, waiters, record, w.id);
      forall v | v in waiters && v.id == w.id ensures v == w {
        assert asked[v.id] == v && asked[w.id] == w;
      }
    }
  }

  lemma CallAfterWait(log: seq<Json>, waiters: seq<Waiter>, w: Waiter, o: Outcome, expired: map<WaiterId, nat>, v: Waiter)
    requires CallFits(log, waiters, w, o, expired) && v != w
    ensures CallFits(log, waiters + [v], w, o, expired)
  {
  }

  /** How a new call stands at once. */
  function Looked(log: seq<Json>, w: Waiter): Outcome {
    if FindRaises(log, w) then Threw
    else match FirstMatch(log, w)
         case Some(r) => Resolved(r)
         case None => Waiting
  }

  lemma ConsistentAfterWait(log: seq<Json>, waiters: seq<Waiter>, outcomes: map<WaiterId, Outcome>,
                            asked: map<WaiterId, Waiter>, expired: map<WaiterId, nat>, w: Waiter)
    requires Consistent(log, waiters, outcomes, asked, expired) && w.id !in outcomes
    ensures var o := Looked(log, w);
            Consistent(log, if o.Waiting? then waiters + [w] else waiters, outcomes[w.id := o], asked[w.id := w], expired)
  {
    var o := Looked(log, w);
    assert w !in waiters;
    forall id | id in outcomes
      ensures CallFits(log, if o.Waiting? then waiters + [w] else waiters, asked[id], outcomes[id], expired)
    {
      CallAfterWait(log, waiters, asked[id], outcomes[id], expired, w);
    }
  }

  /** The list without the waiter of one call. */
  function Without(waiters: seq<Waiter>, id: WaiterId): seq<Waiter> {
    if waiters == [] then []
    else if waiters[0].id == id then waiters[1..]
    else [waiters[0]] + Without(waiters[1..], id)
  }

  lemma {:induction false} WithoutKeeps(waiters: seq<Waiter>, id: WaiterId)
    requires DistinctIds(waiters)
    ensures DistinctIds(Without(waiters, id))
    ensures forall w :: w in Without(waiters, id) <==> w in waiters && w.id != id
  {
    if waiters != [] {
      assert waiters == [waiters[0]] + waiters[1..];
      WithoutKeeps(waiters[1..], id);
    }
  }

  lemma {:induction false} WithoutAt(waiters: seq<Waiter>, id: WaiterId, index: nat)
    requires index <= |waiters| && (forall k | 0 <= k < index :: waiters[k].id != id)
    requires index < |waiters| ==> waiters[index].id == id
    ensures Without(waiters, id) == if index < |waiters| then waiters[..index] + waiters[index + 1..] else waiters
  {
    if index > 0 {
      WithoutAt(waiters[1..], id, index - 1);
    }
  }

  lemma ConsistentAfterTimer(log: seq<Json>, waiters: seq<Waiter>, outcomes: map<WaiterId, Outcome>,
                             asked: map<WaiterId, Waiter>, expired: map<WaiterId, nat>, id: WaiterId)
    requires Consistent(log, waiters, outcomes, asked, expired) && id in outcomes
    ensures if outcomes[id].Waiting?
            then Consistent(log, Without(waiters, id), outcomes[id := TimerOutcome(log)], asked, expired[id := |log|])
            else Consistent(log, Without(waiters, id), outcomes, asked, expired)
  {
    WithoutKeeps(waiters, id);
    assert log[..|log|] == log;
    forall other | other in outcomes && other != id
      ensures CallFits(log, Without(waiters, id), asked[other], outcomes[other], expired)
      ensures CallFits(log, Without(waiters, id), asked[other], outcomes[other], expired[id := |log|])
    {
    }
  }

  /** One turn of the loop in NotifyWaiters, on the list: `now` is the list before the turn. */
  lemma SpliceStep(before: seq<Waiter>, now: seq<Waiter>, i: nat, record: Json)
    requires i < |before| && now == before[..i + 1] + Unmatched(before[i + 1..], record)
    ensures now[i] == before[i]
    ensures (if Matches(before[i], record) then now[..i] + now[i + 1..] else now) == before[..i] + Unmatched(before[i..], record)
  {
    assert before[i..][1..] == before[i + 1..];
    assert now == before[..i] + ([before[i]] + Unmatched(before[i + 1..], record));
  }

  /** The same turn on the outcomes. */
  lemma NotifiedStep(outcomes: map<WaiterId, Outcome>, before: seq<Waiter>, i: nat, record: Json)
    requires i < |before| && Known(before, outcomes)
    ensures before[i].id in outcomes
    ensures Notified(outcomes, before[i..], record) ==
            if Matches(before[i], record) then Notified(outcomes, before[i + 1..], record)[before[i].id := Resolved(record)]
            else Notified(outcomes, before[i + 1..], record)
  {
    assert before[i] in before;
    assert before[i..] == [before[i]] + before[i + 1..];
    NotifiedNext(outcomes, before[i], before[i + 1..], record);
  }

  class EventLifecycleSubscriber {
    var records: seq<Json>
    var waiters: seq<Waiter>
    var outcomes: map<WaiterId, Outcome>
    var nextWaiter: WaiterId
    ghost var asked: map<WaiterId, Waiter>
    ghost var expired: map<WaiterId, nat>

    ghost predicate Valid()
      reads this
    {
      Consistent(records, waiters, outcomes, asked, expired) && forall id | id in outcomes :: id < nextWaiter
    }

    constructor ()
      ensures Valid() && records == [] && waiters == [] && outcomes == map[]
    {
      records, waiters, outcomes, nextWaiter := [], [], map[], 0;
      asked, expired := map[], map[];
    }

    /** Goes through the waiters from the last to the first and takes out those that match.
        A null record raises at the first predicate it meets. */
    method NotifyWaiters(record: Json) returns (threw: bool)
      requires Known(waiters, outcomes)
      modifies this`waiters, this`outcomes
      ensures threw <==> record.JNull? && old(waiters) != []
      ensures waiters == Unmatched(old(waiters), record)
      ensures outcomes == Notified(old(outcomes), old(waiters), record)
    {
      var i := |waiters|;
      ghost var before := waiters;
      while i > 0
        invariant 0 <= i <= |before| && (i < |before| ==> !record.JNull?)
        invariant waiters == before[..i] + Unmatched(before[i..], record)
        invariant outcomes == Notified(old(outcomes), before[i..], record)
      {
        i := i - 1;
        if record.JNull? {
          NobodyMatchesNull(before);
          return true;
        }
        SpliceStep(before, waiters, i, record);
        NotifiedStep(old(outcomes), before, i, record);
        if Matches(waiters[i], record) {
          var waiter := waiters[i];
          waiters := waiters[..i] + waiters[i + 1..];
          outcomes := outcomes[waiter.id := Resolved(record)];
        }
      }
      assert before[0..] == before;
      threw := false;
    }

    method Observe(record: Json)
      requires Known(waiters, outcomes)
      modifies this`records, this`waiters, this`outcomes
      ensures records == old(records) + [record]
      ensures waiters == Unmatched(old(waiters), record)
      ensures outcomes == Notified(old(outcomes), old(waiters), record)
    {
      records := records + [record];
      var _ := NotifyWaiters(record);
    }

    /** One delivery; None is content that does not parse. Whatever is raised is swallowed and
        the message is acked. */
    method OnMessage(content: Option<Json>)
      requires Valid()
      modifies this
      ensures Valid() && asked == old(asked) && SettledStay(old(outcomes), outcomes)
      ensures content.None? ==> records == old(records) && waiters == old(waiters) && outcomes == old(outcomes)
      ensures content.Some? ==>
                forall w | w in old(waiters) ::
                  (w in waiters <==> !IsRecordOf(content.value, w.eventId, w.stage))
                  && w.id in outcomes
                  && outcomes[w.id] == if IsRecordOf(content.value, w.eventId, w.stage) then Resolved(content.value) else Waiting
      ensures content.Some? ==>
                && records == old(records) + [content.value]
                && waiters == Unmatched(old(waiters), content.value)
                && outcomes == Notified(old(outcomes), old(waiters), content.value)
    {
      if content.Some? {
        ConsistentAfterMessage(records, waiters, outcomes, asked, expired, content.value);
        MessageSettles(records, waiters, outcomes, asked, expired, content.value);
        Observe(content.value);
      }
    }

    /** Looks the log through, and registers a waiter if nothing there matches: the call is resolved
        only with the first record of the event at the stage, and waits only if there is none. */
    method WaitFor(eventId: string, stage: string) returns (id: WaiterId)
      requires Valid()
      modifies this
      ensures Valid() && records == old(records) && SettledStay(old(outcomes), outcomes)
      ensures id !in old(outcomes)
      ensures var w := Waiter(id, eventId, stage);
              && asked == old(asked)[id := w]
              && outcomes == old(outcomes)[id := Looked(records, w)]
              && (outcomes[id].Resolved? ==> IsFirst(records, outcomes[id].record, eventId, stage))
              && (outcomes[id] == Waiting <==>
                    forall i | 0 <= i < |records| :: records[i] != JNull && !IsRecordOf(records[i], eventId, stage))
              && waiters == old(waiters) + (if Looked(records, w).Waiting? then [w] else [])
    {
      id := nextWaiter;
      nextWaiter := nextWaiter + 1;
      var w := Waiter(id, eventId, stage);
      ConsistentAfterWait(records, waiters, outcomes, asked, expired, w);
      LookedExactly(records, w);
      asked := asked[id := w];
      if FindRaises(records, w) {
        outcomes := outcomes[id := Threw];
        return;
      }
      var existing := FirstMatch(records, w);
      if existing.Some? {
        outcomes := outcomes[id := Resolved(existing.value)];
        return;
      }
      outcomes := outcomes[id := Waiting];
      waiters := waiters + [w];
    }

    /** The timer of a call takes its waiter off the list, composes the timeout message and
        rejects the promise. A call still waiting is rejected exactly when no record so far is
        null; otherwise composing the message raises and it is abandoned. */
    method FireTimer(id: WaiterId) returns (threw: bool)
      requires Valid() && id in outcomes
      modifies this
      ensures Valid() && records == old(records) && asked == old(asked) && SettledStay(old(outcomes), outcomes)
      ensures threw <==> exists i :: 0 <= i < |records| && records[i] == JNull
      ensures old(outcomes)[id].Waiting? ==> (outcomes[id] == TimedOut <==> !threw) && (outcomes[id] == Abandoned <==> threw)
      ensures forall other | other in old(outcomes) && (other != id || !old(outcomes)[id].Waiting?) ::
                other in outcomes && outcomes[other] == old(outcomes)[other]
      ensures outcomes.Keys == old(outcomes).Keys
      ensures waiters == Without(old(waiters), id)
    {
      ConsistentAfterTimer(records, waiters, outcomes, asked, expired, id);
      RemoveWaiter(id);
      if outcomes[id].Waiting? {
        expired := expired[id := |records|];
      }
      var i := 0;
      while i < |records|
        invariant i <= |records| && forall k | 0 <= k < i :: records[k] != JNull
        invariant outcomes == old(outcomes) && records == old(records)
      {
        if records[i].JNull? {
          if outcomes[id].Waiting? {
            outcomes := outcomes[id := Abandoned];
          }
          return true;
        }
        i := i + 1;
      }
      if outcomes[id].Waiting? {
        outcomes := outcomes[id := TimedOut];
      }
      threw := false;
    }

    method RemoveWaiter(id: WaiterId)
      modifies this`waiters
      ensures waiters == Without(old(waiters), id)
    {
      var index := 0;
      while index < |waiters| && waiters[index].id != id
        invariant index <= |waiters| && forall k | 0 <= k < index :: waiters[k].id != id
      {
        index := index + 1;
      }
      WithoutAt(waiters, id, index);
      if index < |waiters| {
        waiters := waiters[..index] + waiters[index + 1..];
      }
    }
  }

  /** The failing run: a call registers, a literal null arrives, the timer fires. The call is
      off the list, and no later operation settles it. */
  method NullRecordAbandonsACall(eventId: string, stage: string) returns (subscriber: EventLifecycleSubscriber, id: WaiterId)
    ensures subscriber.Valid() && subscriber.waiters == []
    ensures id in subscriber.outcomes && subscriber.outcomes[id] == Abandoned
  {
    subscriber := new EventLifecycleSubscriber();
    id := subscriber.WaitFor(eventId, stage);
    assert subscriber.waiters == [Waiter(id, eventId, stage)];
    NobodyMatchesNull(subscriber.waiters);
    assert !Wakes(subscriber.waiters, id, JNull);
    subscriber.OnMessage(Some(JNull));
    assert subscriber.records[0] == JNull;
    var _ := subscriber.FireTimer(id);
  }

  /** In every state the operations lead to: a call whose timer decided was rejected exactly when no record up to then
      was null, and abandoned exactly when one was. */
  lemma TimerDecides(log: seq<Json>, waiters: seq<Waiter>, outcomes: map<WaiterId, Outcome>,
                     asked: map<WaiterId, Waiter>, expired: map<WaiterId, nat>, id: WaiterId)
    requires Consistent(log, waiters, outcomes, asked, expired) && id in outcomes
    requires outcomes[id].TimedOut? || outcomes[id].Abandoned?
    ensures asked[id] !in waiters && id in expired && expired[id] <= |log|
    ensures outcomes[id].TimedOut? <==> forall i | 0 <= i < expired[id] :: log[i] != JNull
    ensures forall i | 0 <= i < expired[id] :: !IsRecordOf(log[i], asked[id].eventId, asked[id].stage)
  {
    assert CallFits(log, waiters, asked[id], outcomes[id], expired);
    NoMatch(log[..expired[id]], asked[id]);
    forall i | 0 <= i < expired[id]
      ensures log[i] == log[..expired[id]][i] && log[i] in log[..expired[id]]
      ensures !IsRecordOf(log[i], asked[id].eventId, asked[id].stage)
    {
      MatchesExactly(asked[id], log[i]);
    }
  }
}
