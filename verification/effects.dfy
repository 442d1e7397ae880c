/** What every event of the pipeline needs and what it leaves, spelled out on the fields of the state. Each lemma gives
    the guard as an if-and-only-if and the whole next state, so whatever is not named stays as it was. */
module Effects {
  import opened Models
  import opened Repository
  import opened Protocol

  // ---------------------------------------------------------------- API

  /** A batch is taken exactly if it has 1 to 500 valid items. Answered 201, every key in it is accepted and no other;
      on the topic it is one first attempt carrying all of it, unless the publish was lost. */
  lemma PostDoes(w: World, items: seq<Item>, delivery: Delivery)
    ensures Enabled(w, Post(items, delivery)) <==>
      1 <= |items| <= 500 && forall i :: 0 <= i < |items| ==> items[i].valid
    ensures Enabled(w, Post(items, delivery)) ==>
      var w' := Next(w, Post(items, delivery));
      && (forall key :: key in w'.accepted <==>
            key in w.accepted || (delivery.Delivered? && exists i :: 0 <= i < |items| && items[i].key == key))
      && w' == w.(
           requests := if delivery.Lost? then w.requests
                       else w.requests + [RequestEntry(0, [], items, Waiting, seq(|items|, _ => Todo))],
           submitted := if delivery.Lost? then w.submitted else w.submitted + |items|,
           accepted := w'.accepted, clock := w.clock + 1)
  {
  }

  lemma ForeignDoes(w: World, retry: nat, errors: seq<AttemptError>, items: seq<Item>)
    ensures Enabled(w, Foreign(retry, errors, items))
    ensures Next(w, Foreign(retry, errors, items)) == w.(
      requests := w.requests + [RequestEntry(retry, errors, items, Waiting, seq(|items|, _ => Todo))],
      clock := w.clock + 1)
  {
  }

  // ---------------------------------------------------------------- publisher

  lemma TakeDoes(w: World, m: nat)
    ensures Enabled(w, Take(m)) <==> m < |w.requests| && w.requests[m].phase.Waiting?
    ensures Enabled(w, Take(m)) ==>
      Next(w, Take(m)) == w.(requests := w.requests[m := w.requests[m].(phase := InHand)], clock := w.clock + 1)
  {
  }

  // Item i of message m, in work and not yet settled.
  predicate InWork(w: World, m: nat, i: nat) {
    && m < |w.requests| && w.requests[m].phase.InHand?
    && i < |w.requests[m].ops| && |w.requests[m].ops| == |w.requests[m].items|
  }

  // The world with handler i of message m at `op`, one tick later.
  function At(w: World, m: nat, i: nat, op: Op): World
    requires InWork(w, m, i)
  {
    w.(requests := w.requests[m := w.requests[m].(ops := w.requests[m].ops[i := op])], clock := w.clock + 1)
  }

  ghost predicate Free(w: World, key: Key) {
    forall u :: 0 <= u < |w.rows| && w.rows[u].Present? ==> w.rows[u].row.key != key
  }

  lemma KeysAreFree(w: World, key: Key)
    ensures Free(w, key) <==> !KeyTaken(w.rows, key)
  {
  }

  lemma RejectItemDoes(w: World, m: nat, i: nat)
    ensures Enabled(w, RejectItem(m, i)) <==>
      InWork(w, m, i) && w.requests[m].ops[i].Todo? && !w.requests[m].items[i].valid
    ensures Enabled(w, RejectItem(m, i)) ==>
      Next(w, RejectItem(m, i)) == At(w, m, i, Settled(INVALID)).(
        failures := w.failures + [Failure(InvalidItem, Some(w.requests[m].items[i]), None)])
  {
  }

  lemma InsertPendingDoes(w: World, m: nat, i: nat)
    ensures Enabled(w, InsertPending(m, i)) <==>
      && InWork(w, m, i) && w.requests[m].ops[i].Todo? && w.requests[m].items[i].valid && w.requests[m].retry <= 3
      && Free(w, w.requests[m].items[i].key)
    ensures Enabled(w, InsertPending(m, i)) ==>
      Next(w, InsertPending(m, i)) == At(w, m, i, Op.Inserted(|w.rows|, w.clock + 1)).(
        rows := w.rows
                + [Present(Row(w.requests[m].items[i].key, Pending, w.clock, NoReason, Receipts(None, None, None)))])
  {
    if InWork(w, m, i) {
      KeysAreFree(w, w.requests[m].items[i].key);
    }
  }

  lemma DropDuplicateDoes(w: World, m: nat, i: nat)
    ensures Enabled(w, DropDuplicate(m, i)) <==>
      && InWork(w, m, i) && w.requests[m].ops[i].Todo? && w.requests[m].items[i].valid
      && !Free(w, w.requests[m].items[i].key)
    ensures Enabled(w, DropDuplicate(m, i)) ==> Next(w, DropDuplicate(m, i)) == At(w, m, i, Settled(DUPLICATE))
  {
    if InWork(w, m, i) {
      KeysAreFree(w, w.requests[m].items[i].key);
    }
  }

  lemma InsertFailsDoes(w: World, m: nat, i: nat, cause: Cause)
    ensures Enabled(w, InsertFails(m, i, cause)) <==>
      InWork(w, m, i) && w.requests[m].ops[i].Todo? && w.requests[m].items[i].valid && w.requests[m].retry <= 3
    ensures Enabled(w, InsertFails(m, i, cause)) ==>
      Next(w, InsertFails(m, i, cause)) == At(w, m, i, Requeueing(DbInsert, cause))
  {
  }

  /** The first message of a row: retry 0, the envelope's own history, and the uuid of the row just inserted. It is on
      the topic unless it was lost, and the handler compensates unless it was acknowledged. */
  lemma PublishItemDoes(w: World, m: nat, i: nat, delivery: Delivery, stamp: nat, cause: Cause)
    ensures Enabled(w, PublishItem(m, i, delivery, stamp, cause)) <==>
      InWork(w, m, i) && w.requests[m].ops[i].Inserted? && w.requests[m].ops[i].since <= stamp <= w.clock
    ensures Enabled(w, PublishItem(m, i, delivery, stamp, cause)) ==>
      var u := w.requests[m].ops[i].uuid;
      Next(w, PublishItem(m, i, delivery, stamp, cause)) ==
        At(w, m, i, if delivery.Delivered? then Settled(PUBLISHED) else Compensating(u, Publish, cause)).(
          reimbs := if delivery.Lost? then w.reimbs
                    else w.reimbs + [ReimbEntry(u, 0, stamp, w.requests[m].errors, Waiting, Start)])
  {
  }

  lemma BuildFailsDoes(w: World, m: nat, i: nat, cause: Cause)
    ensures Enabled(w, BuildFails(m, i, cause)) <==> InWork(w, m, i) && w.requests[m].ops[i].Inserted?
    ensures Enabled(w, BuildFails(m, i, cause)) ==>
      Next(w, BuildFails(m, i, cause)) == At(w, m, i, Compensating(w.requests[m].ops[i].uuid, DbInsert, cause))
  {
  }

  /** The compensating delete empties the slot only of a row that is still pending; if it fails, a record carries the
      item and the uuid. */
  lemma DeleteDoes(w: World, m: nat, i: nat, ok: bool)
    ensures Enabled(w, Delete(m, i, ok)) <==> InWork(w, m, i) && w.requests[m].ops[i].Compensating?
    ensures Enabled(w, Delete(m, i, ok)) ==>
      var op := w.requests[m].ops[i];
      var pending := op.uuid < |w.rows| && w.rows[op.uuid].Present? && w.rows[op.uuid].row.status == Pending;
      Next(w, Delete(m, i, ok)) == At(w, m, i, Requeueing(op.stage, op.cause)).(
        rows := if ok && pending then w.rows[op.uuid := Absent] else w.rows,
        failures := if ok then w.failures
                    else w.failures + [Failure(CompensatingDeleteFailed, Some(w.requests[m].items[i]), Some(op.uuid))])
  {
  }

  /** A requeue carries this item alone, one retry later, with the failure appended to the history. */
  lemma RequeueItemDoes(w: World, m: nat, i: nat, delivery: Delivery)
    ensures Enabled(w, RequeueItem(m, i, delivery)) <==> InWork(w, m, i) && w.requests[m].ops[i].Requeueing?
    ensures Enabled(w, RequeueItem(m, i, delivery)) ==>
      var r, op, item := w.requests[m], w.requests[m].ops[i], w.requests[m].items[i];
      var errors := r.errors + [AttemptError(|r.errors| + 1, op.stage, op.cause)];
      var next := At(w, m, i, Settled(if delivery.Delivered? then REQUEUED else LOGGED));
      Next(w, RequeueItem(m, i, delivery)) == next.(
        requests := if delivery.Lost? then next.requests
                    else next.requests + [RequestEntry(r.retry + 1, errors, [item], Waiting, [Todo])],
        failures := if delivery.Delivered? then w.failures else w.failures + [Failure(ItemFailed, Some(item), None)])
  {
    assert Todos(1) == [Todo];
  }

  /** Past the ceiling the item is preserved for a human: a row at human-review that tells the envelope's whole history,
      or a record. */
  lemma EscalateItemDoes(w: World, m: nat, i: nat, ok: bool)
    ensures Enabled(w, Event.EscalateItem(m, i, ok)) <==>
      && InWork(w, m, i) && w.requests[m].ops[i].Todo? && w.requests[m].items[i].valid && w.requests[m].retry > 3
      && (ok ==> Free(w, w.requests[m].items[i].key))
    ensures Enabled(w, Event.EscalateItem(m, i, ok)) ==>
      var item, errors := w.requests[m].items[i], w.requests[m].errors;
      Next(w, Event.EscalateItem(m, i, ok)) ==
        if ok then
          At(w, m, i, Settled(ESCALATED)).(
            rows := w.rows + [Present(Row(item.key, HumanReview, w.clock, History(RetryCeilingReached, errors),
                                          Receipts(None, None, None)))],
            escalatedInserts := w.escalatedInserts + 1)
        else
          At(w, m, i, Settled(LOGGED)).(failures := w.failures + [Failure(ItemEscalationFailed, Some(item), None)])
  {
    if InWork(w, m, i) {
      KeysAreFree(w, w.requests[m].items[i].key);
    }
  }

  /** An offset is committed only when every item of its message has settled. */
  lemma CommitDoes(w: World, m: nat)
    ensures Enabled(w, Commit(m)) <==>
      && m < |w.requests| && w.requests[m].phase.InHand?
      && forall i :: 0 <= i < |w.requests[m].ops| ==> w.requests[m].ops[i].Settled?
    ensures Enabled(w, Commit(m)) ==>
      Next(w, Commit(m)) == w.(requests := w.requests[m := w.requests[m].(phase := Committed)], clock := w.clock + 1)
  {
  }

  /** A crash can happen at any step of a message in hand; all its handlers' progress is lost, nothing else. */
  lemma CrashDoes(w: World, m: nat)
    ensures Enabled(w, Crash(m)) <==> m < |w.requests| && w.requests[m].phase.InHand?
    ensures Enabled(w, Crash(m)) ==>
      var r := w.requests[m];
      Next(w, Crash(m)) == w.(
        requests := w.requests[m := RequestEntry(r.retry, r.errors, r.items, Waiting, seq(|r.ops|, _ => Todo))],
        clock := w.clock + 1)
  {
  }

  // ---------------------------------------------------------------- agent

  // Message n, in the agent's hands.
  predicate InHands(w: World, n: nat) {
    n < |w.reimbs| && w.reimbs[n].phase.InHand?
  }

  // The world with message n's handler at `pc`, one tick later.
  function Stepped(w: World, n: nat, pc: AgentPc): World
    requires n < |w.reimbs|
  {
    w.(reimbs := w.reimbs[n := w.reimbs[n].(phase := InHand, pc := pc)], clock := w.clock + 1)
  }

  predicate RowIsThere(w: World, u: nat) {
    u < |w.rows| && w.rows[u].Present?
  }

  lemma AgentTakeDoes(w: World, n: nat)
    ensures Enabled(w, AgentTake(n)) <==> n < |w.reimbs| && w.reimbs[n].phase.Waiting?
    ensures Enabled(w, AgentTake(n)) ==> Next(w, AgentTake(n)) == Stepped(w, n, Start)
  {
  }

  // A row put at human-review with its history: its other columns and its key stay.
  function HeldForAHuman(row: Row, now: nat, header: Header, errors: seq<AttemptError>): Row {
    Row(row.key, HumanReview, now, History(header, errors), row.receipts)
  }

  /** Both of the agent's escalations: the row at human-review, explained, and one transition counted as leaving
      pending; or, if the write fails or the row is gone, a record that names the uuid. */
  lemma EscalationsDo(w: World, n: nat, ok: bool)
    ensures Enabled(w, OverCeiling(n, ok)) <==> InHands(w, n) && w.reimbs[n].pc.Start? && w.reimbs[n].retry > 3
    ensures Enabled(w, EscalateFailure(n, ok)) <==> InHands(w, n) && w.reimbs[n].pc.EscalatingFailure?
    ensures Enabled(w, OverCeiling(n, ok)) ==>
      Next(w, OverCeiling(n, ok)) == Escalated(w, n, ok, RetryCeilingReached, w.reimbs[n].errors)
    ensures Enabled(w, EscalateFailure(n, ok)) ==>
      Next(w, EscalateFailure(n, ok)) == Escalated(w, n, ok, DecisionStageFailure,
        w.reimbs[n].errors + [AttemptError(|w.reimbs[n].errors| + 1, Stage.Decide, w.reimbs[n].pc.cause)])
  {
  }

  function Escalated(w: World, n: nat, ok: bool, header: Header, errors: seq<AttemptError>): World
    requires n < |w.reimbs|
  {
    var u := w.reimbs[n].uuid;
    if ok && RowIsThere(w, u) then
      Stepped(w, n, Handled(MSG_ESCALATED)).(
        rows := w.rows[u := Present(HeldForAHuman(w.rows[u].row, w.clock, header, errors))],
        transitions := w.transitions + [Transition(Pending, HumanReview)])
    else
      Stepped(w, n, Handled(MSG_LOGGED)).(failures := w.failures + [Failure(RowEscalationFailed, None, Some(u))])
  }

  lemma ReadFailsDoes(w: World, n: nat, cause: Cause)
    ensures Enabled(w, ReadFails(n, cause)) <==> InHands(w, n) && w.reimbs[n].pc.Start? && w.reimbs[n].retry <= 3
    ensures Enabled(w, ReadFails(n, cause)) ==>
      Next(w, ReadFails(n, cause)) == Stepped(w, n, Republishing(w.clock + 1, cause))
  {
  }

  /** The read drops a message whose row is gone, and one that is older than its row; any other goes to the graph. */
  lemma ReadRowDoes(w: World, n: nat)
    ensures Enabled(w, ReadRow(n)) <==> InHands(w, n) && w.reimbs[n].pc.Start? && w.reimbs[n].retry <= 3
    ensures Enabled(w, ReadRow(n)) ==>
      var u := w.reimbs[n].uuid;
      Next(w, ReadRow(n)) == Stepped(w, n,
        if !RowIsThere(w, u) then Handled(GHOST)
        else if w.reimbs[n].publishedAt < w.rows[u].row.updatedAt then Handled(STALE)
        else Deciding)
  {
  }

  // A receipts column after a COALESCE.
  function Or<T>(given: Option<T>, kept: Option<T>): Option<T> {
    match given
    case Some(_) => given
    case None => kept
  }

  /** A decision sets status, reason and stamp, stores the columns it has over those the row had, and is counted as
      leaving pending; on a row that is gone it does nothing and the message is resolved all the same. */
  lemma DecideDoes(w: World, n: nat, d: Decision)
    ensures Enabled(w, Event.Decide(n, d)) <==>
      && InHands(w, n) && w.reimbs[n].pc.Deciding?
      && (d.receipts.value.Some? ==> d.receipts.value.value >= 0.0)
    ensures Enabled(w, Event.Decide(n, d)) ==>
      var u, done := w.reimbs[n].uuid, Stepped(w, n, Handled(RESOLVED));
      Next(w, Event.Decide(n, d)) ==
        if !RowIsThere(w, u) then done
        else
          var row := w.rows[u].row;
          done.(
            rows := w.rows[u := Present(Row(row.key, d.status, w.clock, Rule(d.why),
              Receipts(Or(d.receipts.value, row.receipts.value), Or(d.receipts.date, row.receipts.date),
                       Or(d.receipts.currency, row.receipts.currency))))],
            transitions := w.transitions + [Transition(Pending, d.status)])
  {
  }

  lemma DecideFailsDoes(w: World, n: nat, cause: Cause)
    ensures Enabled(w, DecideFails(n, cause)) <==> InHands(w, n) && w.reimbs[n].pc.Deciding?
    ensures Enabled(w, DecideFails(n, cause)) ==>
      Next(w, DecideFails(n, cause)) == Stepped(w, n, EscalatingFailure(cause)).(
        failures := w.failures + [Failure(DecisionFailed, None, Some(w.reimbs[n].uuid))])
  {
  }

  /** A republication: the same uuid, one retry later, stamped anew, with one resolve entry appended. */
  lemma RepublishDoes(w: World, n: nat, delivery: Delivery, stamp: nat)
    ensures Enabled(w, Republish(n, delivery, stamp)) <==>
      InHands(w, n) && w.reimbs[n].pc.Republishing? && w.reimbs[n].pc.since <= stamp <= w.clock
    ensures Enabled(w, Republish(n, delivery, stamp)) ==>
      var r := w.reimbs[n];
      var errors := r.errors + [AttemptError(|r.errors| + 1, Resolve, r.pc.cause)];
      var next := Stepped(w, n, Handled(if delivery.Delivered? then MSG_REQUEUED else MSG_LOGGED));
      Next(w, Republish(n, delivery, stamp)) == next.(
        reimbs := if delivery.Lost? then next.reimbs
                  else next.reimbs + [ReimbEntry(r.uuid, r.retry + 1, stamp, errors, Waiting, Start)],
        failures := if delivery.Delivered? then w.failures
                    else w.failures + [Failure(ResolveFailed, None, Some(r.uuid))])
  {
  }

  lemma AgentCommitDoes(w: World, n: nat)
    ensures Enabled(w, AgentCommit(n)) <==> InHands(w, n) && w.reimbs[n].pc.Handled?
    ensures Enabled(w, AgentCommit(n)) ==>
      Next(w, AgentCommit(n)) == w.(reimbs := w.reimbs[n := w.reimbs[n].(phase := Committed)], clock := w.clock + 1)
  {
  }

  lemma AgentCrashDoes(w: World, n: nat)
    ensures Enabled(w, AgentCrash(n)) <==> InHands(w, n)
    ensures Enabled(w, AgentCrash(n)) ==>
      Next(w, AgentCrash(n)) == w.(
        reimbs := w.reimbs[n := w.reimbs[n].(phase := Waiting, pc := Start)], clock := w.clock + 1)
  {
  }

  // ---------------------------------------------------------------- reviewer

  /** A review needs a row at human-review, auto-rejected or human-rejected; an approval needs all three receipts
      columns and stores them, a rejection stores those it has. The row then says who reviewed it and how, in the
      reviewer's words, and the transition is counted from the true previous status. */
  lemma ReviewRowDoes(w: World, u: nat, approved: bool, text: string, given: Receipts, counted: bool)
    ensures Enabled(w, ReviewRow(u, approved, text, given, counted)) <==>
      && RowIsThere(w, u)
      && (w.rows[u].row.status.HumanReview? || w.rows[u].row.status.AutoRejected?
        || w.rows[u].row.status.HumanRejected?)
      && (given.value.Some? ==> given.value.value >= 0.0)
      && (approved ==> given.value.Some? && given.date.Some? && given.currency.Some?)
    ensures Enabled(w, ReviewRow(u, approved, text, given, counted)) ==>
      var row := w.rows[u].row;
      var to := if approved then HumanApproved else HumanRejected;
      Next(w, ReviewRow(u, approved, text, given, counted)) == w.(
        rows := w.rows[u := Present(Row(row.key, to, w.clock, Reviewed(text),
          Receipts(Or(given.value, row.receipts.value), Or(given.date, row.receipts.date),
                   Or(given.currency, row.receipts.currency))))],
        audit := w.audit + [Review(u, approved)],
        transitions := if counted then w.transitions + [Transition(row.status, to)] else w.transitions,
        clock := w.clock + 1)
  {
  }
}
