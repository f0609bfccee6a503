/** A delivery handled without interference, seen from the whole pipeline: its steps are steps
    of the pipeline, and the row its transaction writes is the row the pipeline's messaging
    outbox gains. */
module HandlerPersists {
  import opened Wrappers
  import opened Contracts
  import opened Topology
  import opened OutboxTable
  import opened Pipeline
  import C = ConsumerProtocol
  import ConsumerInvariants
  import ContractDispatch
  import HandlerRefinement
  import IdempotentTransaction
  import MC = MessagingController

  /** The message a run works on, while it lasts. */
  ghost predicate WorksOn(n: C.Net, tag: C.Tag, msg: C.Msg) {
    tag in n.handlers && n.handlers[tag].copy in n.copies && n.copies[n.handlers[tag].copy].msg == msg
  }

  /** What the pipeline looks like when the steps of one run are over. */
  ghost predicate Carried(cfg: Config, s: State, t: State, steps: seq<C.Step>, event: EventV2, id: RowId, text: string)
    requires C.ValidRun(Reading(cfg), s.consumer, steps)
  {
    && t.consumer == C.Run(Reading(cfg), s.consumer, steps)
    && t.gateway == s.gateway && t.broker == s.broker && t.routed == s.routed
    && t.messaging.rows ==
       if HandlerRefinement.CommitsIn(steps) == 0 then s.messaging.rows
       else s.messaging.rows[id := NewRow(PersistedRecord(event, text), s.messaging.now)]
  }

  lemma CommitsFromFront(steps: seq<C.Step>)
    requires steps != []
    ensures HandlerRefinement.CommitsIn(steps) ==
            (if HandlerRefinement.IsCommit(steps[0]) then 1 else 0) + HandlerRefinement.CommitsIn(steps[1..])
    decreases |steps|
  {
    if |steps| == 1 {
      assert steps[1..] == [] && steps[..0] == [];
    } else {
      var front := steps[..|steps| - 1];
      CommitsFromFront(front);
      assert steps[1..][..|steps| - 2] == front[1..];
    }
  }

  /** One step of the run as a step of the pipeline. */
  function Lifted(step: C.Step, id: RowId, text: string): Step {
    if step.Handle? && step.h.Commit? then Persist(step.tag, step.e, step.h.acknowledged, step.h.cls, id, text)
    else Consumer(step)
  }

  lemma LiftedEnabled(cfg: Config, s: State, tag: C.Tag, step: C.Step, event: EventV2, msg: C.Msg, id: RowId, text: string)
    requires s.broker == DECLARED && C.Enabled(Reading(cfg), s.consumer, step) && HandlerRefinement.By(step, tag)
    requires WorksOn(s.consumer.net, tag, msg)
    requires ContractDispatch.Consume(cfg.lex, msg.body, msg.headers.schemaVersion) == Some(event)
    requires HandlerRefinement.IsCommit(step) ==> id !in s.messaging.rows && EventIdFree(s.messaging.rows, Some(text))
    ensures Enabled(cfg, s, Lifted(step, id, text))
    ensures var t := Next(cfg, s, Lifted(step, id, text));
            && t.consumer == C.Next(Reading(cfg), s.consumer, step)
            && t.gateway == s.gateway && t.broker == s.broker && t.routed == s.routed && t.messaging.now == s.messaging.now
            && t.messaging.rows ==
               if HandlerRefinement.IsCommit(step) then s.messaging.rows[id := NewRow(PersistedRecord(event, text), s.messaging.now)]
               else s.messaging.rows
  {
  }

  /** The run goes on with the same message, or is over. */
  lemma WorksOnStays(cc: C.Config, s: C.State, tag: C.Tag, step: C.Step, msg: C.Msg)
    requires ConsumerInvariants.Linked(s.net) && C.Enabled(cc, s, step) && WorksOn(s.net, tag, msg)
    ensures var t := C.Next(cc, s, step).net; tag in t.handlers ==> WorksOn(t, tag, msg)
  {
    ConsumerInvariants.MessagesKept(cc, s, step);
    if tag in C.Next(cc, s, step).net.handlers {
      ConsumerInvariants.OtherRunsKept(cc, s, step, tag);
    }
  }

  lemma {:induction false} LiftRun(cfg: Config, s: State, tag: C.Tag, steps: seq<C.Step>, event: EventV2, msg: C.Msg, id: RowId, text: string)
    returns (lifted: seq<Step>, t: State)
    requires s.broker == DECLARED && ConsumerInvariants.Linked(s.consumer.net)
    requires C.ValidRun(Reading(cfg), s.consumer, steps) && HandlerRefinement.OnlyBy(steps, tag)
    requires steps != [] ==> WorksOn(s.consumer.net, tag, msg)
    requires ContractDispatch.Consume(cfg.lex, msg.body, msg.headers.schemaVersion) == Some(event)
    requires HandlerRefinement.CommitsIn(steps) <= 1
    requires HandlerRefinement.CommitsIn(steps) == 1 ==> id !in s.messaging.rows && EventIdFree(s.messaging.rows, Some(text))
    ensures ValidRun(cfg, s, lifted) && Run(cfg, s, lifted) == t && Carried(cfg, s, t, steps, event, id, text)
    decreases |steps|
  {
    if steps == [] {
      lifted, t := [], s;
    } else {
      CommitsFromFront(steps);
      LiftedEnabled(cfg, s, tag, steps[0], event, msg, id, text);
      ConsumerInvariants.LinkedKept(Reading(cfg), s.consumer, steps[0]);
      WorksOnStays(Reading(cfg), s.consumer, tag, steps[0], msg);
      var u := Next(cfg, s, Lifted(steps[0], id, text));
      assert HandlerRefinement.OnlyBy(steps[1..], tag) by {
        assert forall i | 0 <= i < |steps| - 1 :: steps[1..][i] == steps[i + 1];
      }
      if |steps| > 1 {
        assert HandlerRefinement.By(steps[1], tag) && steps[1..][0] == steps[1];
      }
      var rest;
      rest, t := LiftRun(cfg, u, tag, steps[1..], event, msg, id, text);
      lifted := [Lifted(steps[0], id, text)] + rest;
      assert lifted[1..] == rest;
    }
  }

  /** The handler of one undisturbed delivery, with any faults: the pipeline reaches the tables,
      the disposition and the copies of the handler's specification, and its messaging outbox
      gains exactly the row the handler's specification says was written. */
  lemma DeliveryIsPipelineRun(cfg: Config, s: State, tag: C.Tag, event: EventV2, f: MC.Faults, id: RowId, text: string)
    returns (steps: seq<Step>, t: State)
    requires s.broker == DECLARED && ConsumerInvariants.Linked(s.consumer.net)
    requires HandlerRefinement.FreshDelivery(Reading(cfg), s.consumer.net, tag, event.env.eventId)
    requires var msg := s.consumer.net.copies[s.consumer.net.handlers[tag].copy].msg;
             ContractDispatch.Consume(cfg.lex, msg.body, msg.headers.schemaVersion) == Some(event)
    requires HandlerRefinement.Honest(f.tx) && id !in s.messaging.rows && EventIdFree(s.messaging.rows, Some(text))
    ensures ValidRun(cfg, s, steps) && Run(cfg, s, steps) == t
    ensures var end := MC.HandledEnding(s.consumer.db, event, s.consumer.net.copies[s.consumer.net.handlers[tag].copy].msg, f);
            && t.consumer.db == end.db
            && t.messaging.rows ==
               (if end.wrote.Some?
                then s.messaging.rows[id := NewRow(IdempotentTransaction.RecordOf(end.wrote.value.event, text), s.messaging.now)]
                else s.messaging.rows)
            && if end.disposition.Unsettled? then t.consumer.net == C.Enter(s.consumer.net, tag, C.Stuck)
               else HandlerRefinement.Concluded(s.consumer.net, t.consumer.net, tag, end)
  {
    var msg := s.consumer.net.copies[s.consumer.net.handlers[tag].copy].msg;
    var inner, end := HandlerRefinement.HandlingIsRun(Reading(cfg), s.consumer, tag, event, f);
    steps, t := LiftRun(cfg, s, tag, inner, event, msg, id, text);
  }
}
