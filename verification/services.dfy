/** The publisher's and the agent's handlers in the form the services run them: one step at a time
    against the table, the two topics and the failure log. Each is proved to be exactly the protocol
    run that its faults select, so everything proved of runs holds of the handlers. */
module Services {
  import opened Models
  import opened Repository
  import opened Protocol
  import G = DecisionGraph

  // ---------------------------------------------------------------- exceptions

  datatype Exc = PublishFailed(cause: Cause) | UniqueViolation | Other(cause: Cause)

  datatype Attempt = Ok(uuid: nat) | Raised(exc: Exc)

  // ---------------------------------------------------------------- faults and the runs they select

  // What goes wrong while one item is handled.
  datatype ItemFaults = ItemFaults(
    writeFails: bool, writeCause: Cause,        // the INSERT raises something other than a duplicate
    buildFails: bool, publish: Delivery, publishCause: Cause,
    deleteOk: bool, requeue: Delivery)

  // Publish, and on a failure the compensating delete.
  function PublishEvents(m: nat, i: nat, f: ItemFaults, stamp: nat): seq<Event> {
    if f.buildFails then [BuildFails(m, i, f.publishCause), Delete(m, i, f.deleteOk)]
    else if f.publish.Raises() then [PublishItem(m, i, f.publish, stamp, f.publishCause), Delete(m, i, f.deleteOk)]
    else [PublishItem(m, i, f.publish, stamp, f.publishCause)]
  }

  // Insert, and publish only what was inserted.
  function PublishPendingEvents(w: World, m: nat, i: nat, f: ItemFaults): seq<Event>
    requires Unstarted(w, m, i)
  {
    if f.writeFails then [InsertFails(m, i, f.writeCause)]
    else if KeyTaken(w.rows, ItemAt(w, m, i).key) then [DropDuplicate(m, i)]
    else [InsertPending(m, i)] + PublishEvents(m, i, f, w.clock + 1)
  }

  // What publish_pending returns or raises.
  function PublishPendingResult(w: World, m: nat, i: nat, f: ItemFaults): Attempt
    requires Unstarted(w, m, i)
  {
    if f.writeFails then Raised(Other(f.writeCause))
    else if KeyTaken(w.rows, ItemAt(w, m, i).key) then Raised(UniqueViolation)
    else if f.buildFails then Raised(Other(f.publishCause))
    else if f.publish.Raises() then Raised(PublishFailed(f.publishCause))
    else Ok(|w.rows|)
  }

  function EscalateEvents(w: World, m: nat, i: nat, f: ItemFaults): seq<Event>
    requires Unstarted(w, m, i)
  {
    if !ItemAt(w, m, i).valid then [RejectItem(m, i)]
    else if f.writeFails then [EscalateItem(m, i, false)]
    else if KeyTaken(w.rows, ItemAt(w, m, i).key) then [DropDuplicate(m, i)]
    else [EscalateItem(m, i, true)]
  }

  function ProcessEvents(w: World, m: nat, i: nat, f: ItemFaults): seq<Event>
    requires Unstarted(w, m, i)
  {
    if !ItemAt(w, m, i).valid then [RejectItem(m, i)]
    else
      var r := PublishPendingResult(w, m, i, f);
      var events := PublishPendingEvents(w, m, i, f);
      if r.Raised? && !r.exc.UniqueViolation? then events + [RequeueItem(m, i, f.requeue)] else events
  }

  // The outcome process_item reports.
  function ProcessOutcome(w: World, m: nat, i: nat, f: ItemFaults): ItemOutcome
    requires Unstarted(w, m, i)
  {
    if !ItemAt(w, m, i).valid then INVALID
    else
      var r := PublishPendingResult(w, m, i, f);
      if r.Ok? then PUBLISHED else if r.exc.UniqueViolation? then DUPLICATE
      else if f.requeue.Raises() then LOGGED else REQUEUED
  }

  // The outcome escalate_item reports.
  function EscalateOutcome(w: World, m: nat, i: nat, f: ItemFaults): ItemOutcome
    requires Unstarted(w, m, i)
  {
    if !ItemAt(w, m, i).valid then INVALID
    else if f.writeFails then LOGGED
    else if KeyTaken(w.rows, ItemAt(w, m, i).key) then DUPLICATE
    else ESCALATED
  }

  function ItemResult(w: World, m: nat, i: nat, f: ItemFaults): ItemOutcome
    requires Unstarted(w, m, i)
  {
    if w.requests[m].retry > MAX_RETRY then EscalateOutcome(w, m, i, f) else ProcessOutcome(w, m, i, f)
  }

  function ItemEvents(w: World, m: nat, i: nat, f: ItemFaults): seq<Event>
    requires Unstarted(w, m, i)
  {
    if w.requests[m].retry > MAX_RETRY then EscalateEvents(w, m, i, f) else ProcessEvents(w, m, i, f)
  }

  // What goes wrong while one Reimbursement message is handled, and what the models answer. Whether the row
  // is still there when the graph writes is the table's business: the handler fills that in.
  datatype MessageFaults = MessageFaults(
    readFails: bool, readCause: Cause, republish: Delivery,
    payloadBad: bool, oracle: G.Oracle, decideCause: Cause, escalateOk: bool)

  function DecisionOf(write: G.Write): Decision {
    Decision(write.status, write.why, G.StoredReceipts(write))
  }

  function GraphOracle(rows: seq<Slot>, uuid: nat, f: MessageFaults): G.Oracle {
    f.oracle.(rowExists := Exists(rows, uuid))
  }

  // The decision the graph comes to on this table, or None when the payload or the graph raises.
  function DecisionFor(rows: seq<Slot>, uuid: nat, f: MessageFaults): Option<Decision> {
    var o := GraphOracle(rows, uuid, f);
    if f.payloadBad || G.PolicyFailure(o).Some? then None else Some(DecisionOf(G.PolicyWrite(o)))
  }

  lemma DecisionsAreStorable(rows: seq<Slot>, uuid: nat, f: MessageFaults)
    requires DecisionFor(rows, uuid, f).Some?
    ensures ReceiptsOk(DecisionFor(rows, uuid, f).value.receipts)
  {
    var v := GraphOracle(rows, uuid, f).extraction.value.value;
    assert G.GuardedValue(v).Some? ==> G.AtLeastZero(G.GuardedValue(v).value);
  }

  function DecideEvents(n: nat, decision: Option<Decision>, f: MessageFaults): seq<Event> {
    if decision.Some? then [Event.Decide(n, decision.value)]
    else [DecideFails(n, f.decideCause), EscalateFailure(n, f.escalateOk)]
  }

  function MessageEvents(w: World, n: nat, f: MessageFaults): seq<Event>
    requires n < |w.reimbs|
  {
    var entry := w.reimbs[n];
    if entry.retry > MAX_RETRY then [OverCeiling(n, f.escalateOk)]
    else if f.readFails then [ReadFails(n, f.readCause), Republish(n, f.republish, w.clock + 1)]
    else if !Exists(w.rows, entry.uuid) || entry.publishedAt < w.rows[entry.uuid].row.updatedAt then [ReadRow(n)]
    else [ReadRow(n)] + DecideEvents(n, DecisionFor(w.rows, entry.uuid, f), f)
  }

  lemma RepublishStep(w: World, n: nat, delivery: Delivery, cause: Cause)
    requires PcIs(w, n) && w.reimbs[n].pc == Republishing(w.clock, cause)
    ensures Enabled(w, Republish(n, delivery, w.clock))
    ensures Next(w, Republish(n, delivery, w.clock)) == AfterRepublish(w, n, delivery, w.clock).(clock := w.clock + 1)
  {
  }

  // ---------------------------------------------------------------- the handlers

  class Pipeline {
    var rows: seq<Slot>
    var audit: seq<Review>
    var transitions: seq<Transition>
    var escalatedInserts: nat
    var requests: seq<RequestEntry>   // the Request topic; an entry's ops are its handlers' progress
    var reimbs: seq<ReimbEntry>       // the Reimbursement topic
    var failures: seq<Failure>
    var accepted: set<Key>            // keys answered 201
    var submitted: nat
    var clock: nat

    constructor ()
      ensures Init(View())
    {
      rows, audit, transitions, escalatedInserts := [], [], [], 0;
      requests, reimbs, failures, accepted, submitted, clock := [], [], [], {}, 0, 0;
    }

    ghost function View(): World
      reads this
    {
      World(rows, audit, transitions, escalatedInserts, requests, reimbs, failures, accepted, submitted, clock)
    }

    method SetOp(m: nat, i: nat, op: Op)
      requires OpIs(View(), m, i)
      modifies this`requests
      ensures View() == Protocol.SetOp(old(View()), m, i, op)
    {
      requests := requests[m := requests[m].(ops := requests[m].ops[i := op])];
    }

    method SetPc(n: nat, pc: AgentPc)
      requires n < |reimbs|
      modifies this`reimbs
      ensures View() == Protocol.SetPc(old(View()), n, InHand, pc)
    {
      reimbs := reimbs[n := reimbs[n].(phase := InHand, pc := pc)];
    }

    method WriteFailure(event: FailureEvent, item: Option<Item>, uuid: Option<nat>)
      modifies this`failures
      ensures View() == Log(old(View()), event, item, uuid)
    {
      failures := failures + [Failure(event, item, uuid)];
    }

    // ---- publisher

    // insert_pending in its own transaction: committed, or raised with nothing written.
    method InsertRow(m: nat, i: nat, f: ItemFaults) returns (r: Attempt, ghost e: Event)
      requires Unstarted(View(), m, i) && requests[m].items[i].valid && requests[m].retry <= MAX_RETRY
      modifies this
      ensures Enabled(old(View()), e) && View() == Next(old(View()), e)
      ensures OpIs(View(), m, i) && requests[m] == old(requests[m]).(ops := requests[m].ops) && clock == old(clock) + 1
      ensures r.Raised? ==> r == PublishPendingResult(old(View()), m, i, f)
      ensures r.Raised? ==> [e] == PublishPendingEvents(old(View()), m, i, f)
      ensures r.Raised? ==> requests[m].ops[i] == if f.writeFails then Requeueing(DbInsert, f.writeCause)
        else Settled(DUPLICATE)
      ensures r.Ok? ==> !f.writeFails && !KeyTaken(old(rows), old(requests[m].items[i]).key)
      ensures r.Ok? ==> r.uuid == |old(rows)| && e == InsertPending(m, i)
      ensures r.Ok? ==> requests[m].ops[i] == Op.Inserted(r.uuid, clock)
    {
      var item := requests[m].items[i];
      if f.writeFails {
        SetOp(m, i, Requeueing(DbInsert, f.writeCause));
        r, e := Raised(Other(f.writeCause)), InsertFails(m, i, f.writeCause);
      } else if KeyTaken(rows, item.key) {
        SetOp(m, i, Settled(DUPLICATE));
        r, e := Raised(UniqueViolation), DropDuplicate(m, i);
      } else {
        r, e := Ok(|rows|), InsertPending(m, i);
        SetOp(m, i, Op.Inserted(|rows|, clock + 1));
        rows := rows + [Present(PendingRow(item.key, clock))];
      }
      clock := clock + 1;
    }

    method PublishMessage(m: nat, i: nat, f: ItemFaults) returns (r: Attempt, ghost e: Event)
      requires OpIs(View(), m, i) && requests[m].ops[i].Inserted? && requests[m].ops[i].since == clock
      modifies this
      ensures e == if f.buildFails then BuildFails(m, i, f.publishCause)
        else PublishItem(m, i, f.publish, old(clock), f.publishCause)
      ensures Enabled(old(View()), e) && View() == Next(old(View()), e)
      ensures r.Ok? <==> !f.buildFails && !f.publish.Raises()
      ensures r.Ok? ==> r.uuid == old(requests[m].ops[i].uuid)
      ensures !r.Ok? ==> r.exc == if f.buildFails then Other(f.publishCause) else PublishFailed(f.publishCause)
    {
      var uuid := requests[m].ops[i].uuid;
      e := if f.buildFails then BuildFails(m, i, f.publishCause)
          else PublishItem(m, i, f.publish, clock, f.publishCause);
      if f.buildFails {
        SetOp(m, i, Compensating(uuid, DbInsert, f.publishCause));
        r := Raised(Other(f.publishCause));
      } else {
        if f.publish.Reached() {
          reimbs := reimbs + [NewReimb(uuid, 0, clock, requests[m].errors)];
        }
        if f.publish.Raises() {
          SetOp(m, i, Compensating(uuid, Publish, f.publishCause));
          r := Raised(PublishFailed(f.publishCause));
        } else {
          SetOp(m, i, Settled(PUBLISHED));
          r := Ok(uuid);
        }
      }
      clock := clock + 1;
    }

    // Never raises: a failed delete is only logged.
    method Compensate(m: nat, i: nat, f: ItemFaults)
      requires OpIs(View(), m, i) && requests[m].ops[i].Compensating?
      modifies this
      ensures View() == Next(old(View()), Delete(m, i, f.deleteOk))
    {
      var op := requests[m].ops[i];
      SetOp(m, i, Requeueing(op.stage, op.cause));
      if f.deleteOk {
        if HasStatus(rows, op.uuid, Pending) {
          rows := rows[op.uuid := Absent];
        }
      } else {
        WriteFailure(CompensatingDeleteFailed, Some(requests[m].items[i]), Some(op.uuid));
      }
      clock := clock + 1;
    }

    // Publish the committed row; on a failure compensate and re-raise.
    method PublishOrCompensate(m: nat, i: nat, f: ItemFaults) returns (r: Attempt)
      requires OpIs(View(), m, i) && requests[m].ops[i].Inserted? && requests[m].ops[i].since == clock
      modifies this
      ensures Reaches(old(View()), PublishEvents(m, i, f, old(clock)), View())
      ensures OpIs(View(), m, i) && requests[m] == old(requests[m]).(ops := requests[m].ops)
      ensures r == if f.buildFails then Raised(Other(f.publishCause))
                   else if f.publish.Raises() then Raised(PublishFailed(f.publishCause))
                   else Ok(old(requests[m].ops[i].uuid))
      ensures requests[m].ops[i] ==
        if r.Ok? then Settled(PUBLISHED) else Requeueing(if f.buildFails then DbInsert else Publish, f.publishCause)
    {
      ghost var w := View();
      ghost var e: Event;
      r, e := PublishMessage(m, i, f);
      if r.Ok? {
        ReachesOne(w, e);
      } else {
        ghost var w1 := View();
        Compensate(m, i, f);
        ReachesTwo(w, e, w1, Delete(m, i, f.deleteOk));
      }
    }

    // Insert, let it commit, then publish.
    method PublishPending(m: nat, i: nat, f: ItemFaults) returns (r: Attempt)
      requires Unstarted(View(), m, i) && requests[m].items[i].valid && requests[m].retry <= MAX_RETRY
      modifies this
      ensures Reaches(old(View()), PublishPendingEvents(old(View()), m, i, f), View())
      ensures r == PublishPendingResult(old(View()), m, i, f)
      ensures OpIs(View(), m, i) && requests[m] == old(requests[m]).(ops := requests[m].ops)
      ensures requests[m].ops[i] ==
        if r.Ok? then Settled(PUBLISHED)
        else match r.exc
             case PublishFailed(cause) => Requeueing(Publish, cause)
             case UniqueViolation => Settled(DUPLICATE)
             case Other(cause) => Requeueing(DbInsert, cause)
    {
      ghost var w := View();
      ghost var e: Event;
      r, e := InsertRow(m, i, f);
      ReachesOne(w, e);
      if r.Ok? {
        ghost var w1 := View();
        r := PublishOrCompensate(m, i, f);
        Compose(w, [e], w1, PublishEvents(m, i, f, w1.clock), View());
      }
    }

    // Republish the item with its history extended; if that fails too, log it.
    method Requeue(m: nat, i: nat, stage: Stage, cause: Cause, delivery: Delivery) returns (outcome: ItemOutcome)
      requires OpIs(View(), m, i) && requests[m].ops[i] == Requeueing(stage, cause)
      modifies this
      ensures View() == Next(old(View()), RequeueItem(m, i, delivery))
      ensures OpIs(View(), m, i) && requests[m].ops[i] == Settled(outcome)
      ensures outcome == if delivery.Raises() then LOGGED else REQUEUED
    {
      var r := requests[m];
      var retried := NewRequest(r.retry + 1, Appended(r.errors, stage, cause), [r.items[i]]);
      outcome := if delivery.Raises() then LOGGED else REQUEUED;
      SetOp(m, i, Settled(outcome));
      if delivery.Reached() {
        requests := requests + [retried];
      }
      if delivery.Raises() {
        WriteFailure(ItemFailed, Some(r.items[i]), None);
      }
      clock := clock + 1;
    }

    method Accepts(m: nat, i: nat) returns (accepted: bool)
      requires Unstarted(View(), m, i)
      modifies this
      ensures accepted == old(requests[m].items[i].valid)
      ensures accepted ==> View() == old(View())
      ensures !accepted ==> View() == Next(old(View()), RejectItem(m, i))
    {
      accepted := requests[m].items[i].valid;
      if !accepted {
        SetOp(m, i, Settled(INVALID));
        WriteFailure(InvalidItem, Some(requests[m].items[i]), None);
        clock := clock + 1;
      }
    }

    /** process_item: every failure becomes an outcome, and the run is the one its faults select. */
    method ProcessItem(m: nat, i: nat, f: ItemFaults) returns (outcome: ItemOutcome)
      requires Unstarted(View(), m, i) && requests[m].retry <= MAX_RETRY
      modifies this
      ensures Reaches(old(View()), ProcessEvents(old(View()), m, i, f), View())
      ensures OpIs(View(), m, i) && requests[m].ops[i] == Settled(outcome)
      ensures outcome == ProcessOutcome(old(View()), m, i, f)
    {
      ghost var w := View();
      var accepted := Accepts(m, i);
      if !accepted {
        ReachesOne(w, RejectItem(m, i));
        return INVALID;
      }
      var r := PublishPending(m, i, f);
      if r.Ok? {
        return PUBLISHED;
      }
      ghost var w1 := View();
      match r.exc {
        case PublishFailed(cause) => outcome := Requeue(m, i, Publish, cause, f.requeue);
        case UniqueViolation => return DUPLICATE;
        case Other(cause) => outcome := Requeue(m, i, DbInsert, cause, f.requeue);
      }
      Extend(w, PublishPendingEvents(w, m, i, f), w1, RequeueItem(m, i, f.requeue));
    }

    /** escalate_item: past the ceiling the item is preserved for a human, never published or requeued. */
    method EscalateItem(m: nat, i: nat, f: ItemFaults) returns (outcome: ItemOutcome)
      requires Unstarted(View(), m, i) && requests[m].retry > MAX_RETRY
      modifies this
      ensures Reaches(old(View()), EscalateEvents(old(View()), m, i, f), View())
      ensures OpIs(View(), m, i) && requests[m].ops[i] == Settled(outcome)
      ensures |requests| == |old(requests)| && reimbs == old(reimbs)
      ensures outcome == EscalateOutcome(old(View()), m, i, f)
    {
      ghost var w := View();
      var accepted := Accepts(m, i);
      if !accepted {
        ReachesOne(w, RejectItem(m, i));
        return INVALID;
      }
      var item := requests[m].items[i];
      if f.writeFails {
        outcome := LOGGED;
        SetOp(m, i, Settled(LOGGED));
        WriteFailure(ItemEscalationFailed, Some(item), None);
      } else if KeyTaken(rows, item.key) {
        outcome := DUPLICATE;
        SetOp(m, i, Settled(DUPLICATE));
      } else {
        outcome := ESCALATED;
        SetOp(m, i, Settled(ESCALATED));
        rows := rows + [Present(HumanReviewRow(item.key, History(RetryCeilingReached, requests[m].errors), clock))];
        escalatedInserts := escalatedInserts + 1;
      }
      clock := clock + 1;
      ReachesOne(w, EscalateEvents(w, m, i, f)[0]);
    }

    // handle_message: past the ceiling every item is escalated, up to it every item is processed.
    method HandleItem(m: nat, i: nat, f: ItemFaults) returns (outcome: ItemOutcome)
      requires Unstarted(View(), m, i)
      modifies this
      ensures Reaches(old(View()), ItemEvents(old(View()), m, i, f), View())
      ensures OpIs(View(), m, i) && requests[m].ops[i] == Settled(outcome)
      ensures outcome == ItemResult(old(View()), m, i, f)
    {
      if requests[m].retry > MAX_RETRY {
        outcome := EscalateItem(m, i, f);
      } else {
        outcome := ProcessItem(m, i, f);
      }
    }

    // ---- agent

    // apply_decision: the unguarded UPDATE, then the counter; None (here false) on a ghost uuid.
    method ApplyDecision(uuid: nat, status: DecisionStatus, reason: Reason, receipts: Receipts) returns (hit: bool)
      modifies this`rows, this`transitions
      ensures View() == Protocol.ApplyDecision(old(View()), uuid, status, reason, receipts)
      ensures hit == Exists(old(rows), uuid)
    {
      hit := Exists(rows, uuid);
      if hit {
        var row := rows[uuid].row;
        rows := rows[uuid := Present(Row(row.key, status, clock, reason, Backfilled(receipts, row.receipts)))];
        transitions := transitions + [Transition(Pending, status)];
      }
    }

    // The escalation shape shared by the retry ceiling and the decision failure. Never raises.
    method EscalateRow(n: nat, ok: bool, header: Header, errors: seq<AttemptError>) returns (outcome: MessageOutcome)
      requires n < |reimbs|
      modifies this
      ensures View() == Protocol.EscalateRow(old(View()), n, ok, header, errors).(clock := old(clock) + 1)
      ensures n < |reimbs| && reimbs[n].pc == Handled(outcome)
      ensures outcome == if ok && Exists(old(rows), old(reimbs[n].uuid)) then MSG_ESCALATED else MSG_LOGGED
    {
      var uuid := reimbs[n].uuid;
      var hit := false;
      if ok {
        hit := ApplyDecision(uuid, HumanReview, History(header, errors), NO_RECEIPTS);
      }
      outcome := if hit then MSG_ESCALATED else MSG_LOGGED;
      SetPc(n, Handled(outcome));
      if !hit {
        WriteFailure(RowEscalationFailed, None, Some(uuid));
      }
      clock := clock + 1;
    }

    // Republish at retry + 1 with the read failure appended; if that fails too, log it.
    method RequeueMessage(n: nat, cause: Cause, delivery: Delivery) returns (outcome: MessageOutcome)
      requires PcIs(View(), n) && reimbs[n].pc == Republishing(clock, cause)
      modifies this
      ensures Enabled(old(View()), Republish(n, delivery, old(clock)))
        && View() == Next(old(View()), Republish(n, delivery, old(clock)))
      ensures outcome == if delivery.Raises() then MSG_LOGGED else MSG_REQUEUED
      ensures n < |reimbs| && reimbs[n].pc == Handled(outcome)
    {
      RepublishStep(View(), n, delivery, cause);
      var entry := reimbs[n];
      outcome := if delivery.Raises() then MSG_LOGGED else MSG_REQUEUED;
      SetPc(n, Handled(outcome));
      if delivery.Reached() {
        reimbs := reimbs + [NewReimb(entry.uuid, entry.retry + 1, clock, Appended(entry.errors, Stage.Resolve, cause))];
      }
      if delivery.Raises() {
        WriteFailure(ResolveFailed, None, Some(entry.uuid));
      }
      clock := clock + 1;
    }

    // envelope.errors plus one `decide` entry, written onto the row at once.
    method EscalateDecisionFailure(n: nat, cause: Cause, ok: bool) returns (outcome: MessageOutcome)
      requires PcIs(View(), n) && reimbs[n].pc == EscalatingFailure(cause)
      modifies this
      ensures View() == Next(old(View()), EscalateFailure(n, ok))
      ensures n < |reimbs| && reimbs[n].pc == Handled(outcome)
    {
      var errors := Appended(reimbs[n].errors, Stage.Decide, cause);
      outcome := EscalateRow(n, ok, DecisionStageFailure, errors);
    }

    method RecordDecision(n: nat, d: Decision)
      requires PcIs(View(), n) && reimbs[n].pc.Deciding? && ReceiptsOk(d.receipts)
      modifies this
      ensures View() == Next(old(View()), Event.Decide(n, d))
      ensures n < |reimbs| && reimbs[n].pc == Handled(RESOLVED)
    {
      var _ := ApplyDecision(reimbs[n].uuid, d.status, Rule(d.why), d.receipts);
      SetPc(n, Handled(RESOLVED));
      clock := clock + 1;
    }

    method RecordDecisionFailure(n: nat, cause: Cause)
      requires PcIs(View(), n) && reimbs[n].pc.Deciding?
      modifies this
      ensures View() == Next(old(View()), DecideFails(n, cause))
      ensures PcIs(View(), n) && reimbs[n].pc == EscalatingFailure(cause)
    {
      SetPc(n, EscalatingFailure(cause));
      WriteFailure(DecisionFailed, None, Some(reimbs[n].uuid));
      clock := clock + 1;
    }

    // Run the graph; if it raises at any node, log that and escalate at once with stage `decide`.
    method DecideRow(n: nat, f: MessageFaults) returns (outcome: MessageOutcome)
      requires PcIs(View(), n) && reimbs[n].pc.Deciding?
      modifies this
      ensures Reaches(old(View()), DecideEvents(n, DecisionFor(old(rows), old(reimbs[n].uuid), f), f), View())
      ensures n < |reimbs| && reimbs[n].pc == Handled(outcome)
    {
      ghost var w := View();
      if !f.payloadBad {
        var r, writes, _, _ := G.Run(GraphOracle(rows, reimbs[n].uuid, f));
        if r.Done? {
          DecisionsAreStorable(rows, reimbs[n].uuid, f);
          RecordDecision(n, DecisionOf(writes[0]));
          ReachesOne(w, Event.Decide(n, DecisionOf(writes[0])));
          return RESOLVED;
        }
      }
      outcome := FailToHuman(n, f);
    }

    // What the except clause of _decide does, whichever step raised.
    method FailToHuman(n: nat, f: MessageFaults) returns (outcome: MessageOutcome)
      requires PcIs(View(), n) && reimbs[n].pc.Deciding?
      modifies this
      ensures Reaches(old(View()), DecideEvents(n, None, f), View())
      ensures n < |reimbs| && reimbs[n].pc == Handled(outcome)
    {
      ghost var w := View();
      RecordDecisionFailure(n, f.decideCause);
      ghost var w1 := View();
      outcome := EscalateDecisionFailure(n, f.decideCause, f.escalateOk);
      ReachesTwo(w, DecideFails(n, f.decideCause), w1, EscalateFailure(n, f.escalateOk));
    }

    // The failed read, before anything is republished.
    method RecordReadFailure(n: nat, cause: Cause)
      requires PcIs(View(), n) && reimbs[n].pc.Start? && reimbs[n].retry <= MAX_RETRY
      modifies this
      ensures View() == Next(old(View()), ReadFails(n, cause))
      ensures PcIs(View(), n) && reimbs[n].pc == Republishing(clock, cause)
    {
      SetPc(n, Republishing(clock + 1, cause));
      clock := clock + 1;
    }

    // get_by_uuid, the ghost check and the staleness guard.
    method ReadAndGuard(n: nat) returns (settled: Option<MessageOutcome>)
      requires PcIs(View(), n) && reimbs[n].pc.Start? && reimbs[n].retry <= MAX_RETRY
      modifies this
      ensures View() == Next(old(View()), ReadRow(n))
      ensures PcIs(View(), n) && reimbs[n].pc == if settled.Some? then Handled(settled.value) else Deciding
      ensures settled == if !Exists(old(rows), old(reimbs[n].uuid)) then Some(GHOST)
                         else if old(reimbs[n].publishedAt < rows[reimbs[n].uuid].row.updatedAt) then Some(STALE)
                           else None
    {
      var entry := reimbs[n];
      if !Exists(rows, entry.uuid) {
        settled := Some(GHOST);
      } else if entry.publishedAt < rows[entry.uuid].row.updatedAt {
        settled := Some(STALE);
      } else {
        settled := None;
      }
      SetPc(n, if settled.Some? then Handled(settled.value) else Deciding);
      clock := clock + 1;
    }

    // _resolve: the retry <= 3 path.
    method Resolve(n: nat, f: MessageFaults) returns (outcome: MessageOutcome)
      requires PcIs(View(), n) && reimbs[n].pc.Start? && reimbs[n].retry <= MAX_RETRY
      modifies this
      ensures Reaches(old(View()), MessageEvents(old(View()), n, f), View())
      ensures n < |reimbs| && reimbs[n].pc == Handled(outcome)
    {
      ghost var w := View();
      if f.readFails {
        RecordReadFailure(n, f.readCause);
        ghost var w1 := View();
        outcome := RequeueMessage(n, f.readCause, f.republish);
        ReachesTwo(w, ReadFails(n, f.readCause), w1, Republish(n, f.republish, w1.clock));
      } else {
        var settled := ReadAndGuard(n);
        ReachesOne(w, ReadRow(n));
        if settled.Some? {
          outcome := settled.value;
        } else {
          outcome := DecideRow(n, f);
          RunsCompose(w, [ReadRow(n)], DecideEvents(n, DecisionFor(w.rows, w.reimbs[n].uuid, f), f));
        }
      }
    }

    /** validation.handle_message: the ceiling first, then the normal path. Never raises. */
    method HandleMessage(n: nat, f: MessageFaults) returns (outcome: MessageOutcome)
      requires PcIs(View(), n) && reimbs[n].pc.Start?
      modifies this
      ensures Reaches(old(View()), MessageEvents(old(View()), n, f), View())
      ensures n < |reimbs| && reimbs[n].pc == Handled(outcome)
    {
      ghost var w := View();
      if reimbs[n].retry > MAX_RETRY {
        outcome := EscalateRow(n, f.escalateOk, RetryCeilingReached, reimbs[n].errors);
        ReachesOne(w, OverCeiling(n, f.escalateOk));
      } else {
        outcome := Resolve(n, f);
      }
    }
  }
}
