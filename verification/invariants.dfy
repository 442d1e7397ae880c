/** Structural invariants of the pipeline that hold in every run: under crashes of either service,
    redelivery, ambiguous publishes and hand-crafted Request messages. */
module Invariants {
  import opened Models
  import opened Repository
  import opened Protocol

  // Progress is reset by a crash and complete at a commit.
  ghost predicate Shape(w: World) {
    && (forall m :: 0 <= m < |w.requests| ==> ShapeOf(w.requests[m]))
    && (forall n :: 0 <= n < |w.reimbs| ==> MessageShape(w.reimbs[n]))
  }

  predicate MessageShape(r: ReimbEntry) {
    && (r.phase.Waiting? ==> r.pc.Start?)
    && (r.phase.Committed? ==> r.pc.Handled?)
    && (r.retry > MAX_RETRY ==> r.pc.Start? || r.pc.Handled?)
  }

  ghost predicate ShapeOf(r: RequestEntry) {
    && |r.ops| == |r.items|
    && (r.phase.Waiting? ==> forall i :: 0 <= i < |r.ops| ==> r.ops[i] == Todo)
    && (r.phase.Committed? ==> AllSettled(r.ops))
    && (r.retry > MAX_RETRY ==> forall i :: 0 <= i < |r.ops| ==> r.ops[i].Todo? || r.ops[i].Settled?)
  }

  predicate Holds(w: World, m: nat, i: nat) {
    m < |w.requests| && i < |w.requests[m].ops| && w.requests[m].ops[i].HoldsRow()
  }

  function Held(w: World, m: nat, i: nat): nat
    requires Holds(w, m, i)
  {
    w.requests[m].ops[i].uuid
  }

  // A handler between its insert and the end of its compensation owns the row it inserted.
  ghost predicate Owners(w: World) {
    && Shape(w)
    && (forall m: nat, i: nat :: Holds(w, m, i) ==>
          Exists(w.rows, Held(w, m, i)) && w.rows[Held(w, m, i)].row.key == w.requests[m].items[i].key)
    && (forall m: nat, i: nat, m': nat, i': nat ::
          Holds(w, m, i) && Holds(w, m', i') && Held(w, m, i) == Held(w, m', i') ==> m == m' && i == i')
  }

  ghost predicate NoMessageFor(w: World, uuid: nat) {
    forall n :: 0 <= n < |w.reimbs| ==> w.reimbs[n].uuid != uuid
  }

  // Until its publish, an inserted row is pending, stamped in the past, and unknown to the agent.
  ghost predicate Unpublished(w: World) {
    forall m: nat, i: nat :: Holds(w, m, i) && w.requests[m].ops[i].Inserted? ==>
      && HasStatus(w.rows, Held(w, m, i), Pending)
      && w.rows[Held(w, m, i)].row.updatedAt < w.requests[m].ops[i].since
      && NoMessageFor(w, Held(w, m, i))
  }

  // Nothing on record is stamped later than the clock.
  ghost predicate Past(w: World) {
    && (forall u: nat :: Exists(w.rows, u) ==> w.rows[u].row.updatedAt < w.clock)
    && (forall n :: 0 <= n < |w.reimbs| ==> w.reimbs[n].publishedAt < w.clock && w.reimbs[n].uuid < |w.rows|)
    && (forall n :: 0 <= n < |w.reimbs| && w.reimbs[n].pc.Republishing? ==> w.reimbs[n].pc.since <= w.clock)
  }

  // A message for a pending row is never older than the row, nor will its republication be.
  ghost predicate NeverStaleWhilePending(w: World) {
    forall n :: 0 <= n < |w.reimbs| && HasStatus(w.rows, w.reimbs[n].uuid, Pending) ==>
      && w.rows[w.reimbs[n].uuid].row.updatedAt <= w.reimbs[n].publishedAt
      && (w.reimbs[n].pc.Republishing? ==> w.rows[w.reimbs[n].uuid].row.updatedAt < w.reimbs[n].pc.since)
  }

  ghost predicate Inv(w: World) {
    && Owners(w)
    && Unpublished(w)
    && Past(w)
    && NeverStaleWhilePending(w)
    && UniqueKeys(w.rows)
  }

  predicate IsItemEvent(e: Event) {
    e.RejectItem? || e.InsertPending? || e.DropDuplicate? || e.InsertFails? || e.PublishItem? || e.BuildFails? ||
    e.Delete? || e.RequeueItem? || e.EscalateItem?
  }

  predicate IsRequestEvent(e: Event) {
    e.Post? || e.Foreign? || e.Take? || e.Commit? || e.Crash?
  }

  predicate IsMessageEvent(e: Event) {
    e.AgentTake? || e.OverCeiling? || e.ReadFails? || e.ReadRow? || e.Decide? || e.DecideFails? ||
    e.EscalateFailure? || e.Republish? || e.AgentCommit? || e.AgentCrash?
  }

  // An item event rewrites one op; a requeue also appends the retried envelope.
  ghost predicate OpMoves(w: World, e: Event, w': World) {
    && IsItemEvent(e) && OpIs(w, e.m, e.i) && !w.requests[e.m].ops[e.i].Settled?
    && |w.requests| <= |w'.requests| <= |w.requests| + 1
    && w'.requests[..|w.requests|] == w.requests[e.m := w.requests[e.m].(ops := w'.requests[e.m].ops)]
    && |w'.requests[e.m].ops| == |w.requests[e.m].ops|
    && w'.requests[e.m].ops == w.requests[e.m].ops[e.i := w'.requests[e.m].ops[e.i]]
    && (w.requests[e.m].retry > MAX_RETRY ==> w'.requests[e.m].ops[e.i].Settled?)
    && OpStep(w, e, w.requests[e.m].ops[e.i], w'.requests[e.m].ops[e.i])
    && (|w'.requests| > |w.requests| ==>
          && e.RequeueItem? && w.requests[e.m].ops[e.i].Requeueing?
          && w'.requests[|w.requests|] == NewRequest(w.requests[e.m].retry + 1,
               Appended(w.requests[e.m].errors, w.requests[e.m].ops[e.i].stage, w.requests[e.m].ops[e.i].cause),
                   [ItemAt(w, e.m, e.i)]))
  }

  ghost predicate OpStep(w: World, e: Event, before: Op, after: Op) {
    match after
    case Todo => false
    case Inserted(u, since) => e.InsertPending? && before.Todo? && u == |w.rows| && since == w.clock + 1
    case Compensating(u, stage, _) =>
      (e.PublishItem? || e.BuildFails?) && before.Inserted? && u == before.uuid && (stage.Publish? || stage.DbInsert?)
    case Requeueing(stage, _) => (e.InsertFails? && before.Todo? && stage.DbInsert?)
                                 || (e.Delete? && before.Compensating? && stage == before.stage)
    case Settled(_) => true
  }

  lemma OpMovesOnly(w: World, e: Event)
    requires Shape(w) && Enabled(w, e) && IsItemEvent(e)
    ensures OpMoves(w, e, Next(w, e))
  {
  }

  lemma OpMovesKeepShape(w: World, e: Event, w': World)
    requires Shape(w) && OpMoves(w, e, w')
    ensures forall m :: 0 <= m < |w'.requests| ==> ShapeOf(w'.requests[m])
  {
    forall m | 0 <= m < |w'.requests| ensures ShapeOf(w'.requests[m]) {
      if m < |w.requests| {
        assert w'.requests[m] == w'.requests[..|w.requests|][m];
      }
    }
  }

  lemma RequestEventsKeepShape(w: World, e: Event)
    requires Shape(w) && Enabled(w, e) && IsRequestEvent(e)
    ensures forall m :: 0 <= m < |Next(w, e).requests| ==> ShapeOf(Next(w, e).requests[m])
  {
  }

  // What one event may do to the rows.
  ghost predicate RowsMove(w: World, e: Event, w': World) {
    && |w.rows| <= |w'.rows| <= |w.rows| + 1
    && (forall u: nat :: u < |w.rows| ==> SlotMoves(w, e, w.rows[u], w'.rows[u], u))
    && (|w'.rows| > |w.rows| ==>
          && (e.InsertPending? || e.EscalateItem?)
          && OpIs(w, e.m, e.i) && !KeyTaken(w.rows, ItemAt(w, e.m, e.i).key)
          && w'.rows[|w.rows|].Present?
          && w'.rows[|w.rows|].row.updatedAt == w.clock
          && w'.rows[|w.rows|].row.key == ItemAt(w, e.m, e.i).key
          && w'.rows[|w.rows|].row.status == if e.InsertPending? then Pending else HumanReview)
  }

  ghost predicate WritesRow(w: World, e: Event, u: nat) {
    && (e.OverCeiling? || e.Decide? || e.EscalateFailure?)
    && e.n < |w.reimbs| && w.reimbs[e.n].uuid == u
  }

  ghost predicate SlotMoves(w: World, e: Event, before: Slot, after: Slot, u: nat) {
    || after == before
    || (after.Absent? && before.Present? && before.row.status == Pending
        && e.Delete? && Holds(w, e.m, e.i) && Held(w, e.m, e.i) == u && w.requests[e.m].ops[e.i].Compensating?)
    || (&& before.Present? && after.Present?
        && after.row.key == before.row.key && after.row.status != Pending && after.row.updatedAt == w.clock
        && if e.ReviewRow? then
             && e.u == u && before.row.status in ELIGIBLE_STATUSES
             && after.row.status == (if e.approved then HumanApproved else HumanRejected)
             && (e.approved ==> after.row.receipts == e.receipts && ReviewArgsOk(true, e.receipts))
           else
             WritesRow(w, e, u) && !after.row.status.HumanApproved? && !after.row.status.HumanRejected?)
  }

  lemma ItemEventsMoveRows(w: World, e: Event)
    requires Shape(w) && Enabled(w, e) && IsItemEvent(e)
    ensures RowsMove(w, e, Next(w, e))
  {
  }

  lemma MessageEventsMoveRows(w: World, e: Event)
    requires Shape(w) && Enabled(w, e) && IsMessageEvent(e)
    ensures RowsMove(w, e, Next(w, e))
  {
  }

  lemma RowsMoveOnly(w: World, e: Event)
    requires Shape(w) && Enabled(w, e)
    ensures RowsMove(w, e, Next(w, e))
  {
    if IsItemEvent(e) {
      ItemEventsMoveRows(w, e);
    } else if IsMessageEvent(e) {
      MessageEventsMoveRows(w, e);
    }
  }

  // What one event may do to the rows' holders.
  ghost predicate HoldersMove(w: World, e: Event, w': World) {
    && |w.requests| <= |w'.requests|
    && (forall m: nat, i: nat :: Holds(w', m, i) ==> HolderMoves(w, e, w', m, i))
  }

  ghost predicate HolderMoves(w: World, e: Event, w': World, m: nat, i: nat)
    requires Holds(w', m, i)
  {
    if e == InsertPending(m, i) then
      w'.requests[m].ops[i] == Op.Inserted(|w.rows|, w.clock + 1) && |w'.rows| == |w.rows| + 1
      && OpIs(w, m, i) && i < |w'.requests[m].items| && w'.requests[m].items[i] == ItemAt(w, m, i)
    else
      && Holds(w, m, i) && Held(w', m, i) == Held(w, m, i) && !(e.Delete? && e.m == m && e.i == i)
      && i < |w'.requests[m].items| == |w.requests[m].items|
      && w'.requests[m].items[i] == w.requests[m].items[i]
      && (w'.requests[m].ops[i].Inserted? ==>
            w'.requests[m].ops[i] == w.requests[m].ops[i] && !(e.PublishItem? && e.m == m && e.i == i))
  }

  lemma HoldersMoveOnly(w: World, e: Event)
    requires Shape(w) && Enabled(w, e)
    ensures HoldersMove(w, e, Next(w, e))
  {
    if IsItemEvent(e) {
      OpMovesOnly(w, e);
      ItemEventsMoveHolders(w, e, Next(w, e));
    } else if IsRequestEvent(e) {
      RequestEventsMoveHolders(w, e);
    } else {
      assert Next(w, e).requests == w.requests;
    }
  }

  lemma RequestEventsMoveHolders(w: World, e: Event)
    requires Shape(w) && Enabled(w, e) && IsRequestEvent(e)
    ensures HoldersMove(w, e, Next(w, e))
  {
  }

  lemma ItemEventsMoveHolders(w: World, e: Event, w': World)
    requires Shape(w) && OpMoves(w, e, w') && (e.InsertPending? ==> |w'.rows| == |w.rows| + 1)
    ensures HoldersMove(w, e, w')
  {
    forall m: nat, i: nat | Holds(w', m, i) ensures HolderMoves(w, e, w', m, i) {
      if m < |w.requests| {
        assert w'.requests[m] == w'.requests[..|w.requests|][m];
      }
    }
  }

  // What one event may do to the Reimbursement topic.
  ghost predicate ReimbsMove(w: World, e: Event, w': World) {
    && |w.reimbs| <= |w'.reimbs| <= |w.reimbs| + 1
    && (forall n: nat :: n < |w.reimbs| ==> ReimbMoves(w, w.reimbs[n], w'.reimbs[n]))
    && (|w'.reimbs| > |w.reimbs| ==> AppendedReimb(w, e, w'.reimbs[|w.reimbs|]))
  }

  ghost predicate ReimbMoves(w: World, before: ReimbEntry, after: ReimbEntry) {
    && after.uuid == before.uuid && after.retry == before.retry
    && after.publishedAt == before.publishedAt && after.errors == before.errors
    && (after.pc.Republishing? ==> after.pc == before.pc || after.pc.since == w.clock + 1)
  }

  ghost predicate AppendedReimb(w: World, e: Event, entry: ReimbEntry) {
    && entry.phase.Waiting? && entry.pc.Start?
    && (|| (&& e.PublishItem? && Holds(w, e.m, e.i) && w.requests[e.m].ops[e.i].Inserted?
            && entry.uuid == Held(w, e.m, e.i) && w.requests[e.m].ops[e.i].since <= entry.publishedAt <= w.clock
            && entry.retry == 0 && entry.errors == w.requests[e.m].errors)
        || (&& e.Republish? && e.n < |w.reimbs| && w.reimbs[e.n].pc.Republishing? && PcIs(w, e.n)
            && entry.uuid == w.reimbs[e.n].uuid && w.reimbs[e.n].pc.since <= entry.publishedAt <= w.clock
            && entry.retry == w.reimbs[e.n].retry + 1 && w.reimbs[e.n].retry <= MAX_RETRY
            && entry.errors == Appended(w.reimbs[e.n].errors, Resolve, w.reimbs[e.n].pc.cause)))
  }

  // A message event rewrites the entry it is about; a republication also appends one.
  ghost predicate OneEntryMoves(w: World, e: Event, w': World) {
    && IsMessageEvent(e) && e.n < |w.reimbs| <= |w'.reimbs| <= |w.reimbs| + 1
    && w'.reimbs[..|w.reimbs|] == w.reimbs[e.n := w'.reimbs[e.n]]
    && w'.requests == w.requests
    && ReimbMoves(w, w.reimbs[e.n], w'.reimbs[e.n])
    && PcStep(e, w.reimbs[e.n], w'.reimbs[e.n])
    && (|w'.reimbs| > |w.reimbs| ==>
          && e.Republish? && w.reimbs[e.n].pc.Republishing?
          && w'.reimbs[|w.reimbs|].phase.Waiting? && w'.reimbs[|w.reimbs|].pc.Start?
          && w'.reimbs[|w.reimbs|].retry == w.reimbs[e.n].retry + 1)
  }

  predicate PcStep(e: Event, before: ReimbEntry, after: ReimbEntry) {
    if e.AgentTake? then before.phase.Waiting? && after.phase.InHand? && before.pc == after.pc == Start
    else if e.AgentCommit? then before.phase.InHand? && before.pc.Handled? && after.phase.Committed?
      && after.pc == before.pc
    else if e.AgentCrash? then before.phase.InHand? && after.phase.Waiting? && after.pc == Start
    else
      && before.phase.InHand? && after.phase.InHand? && !before.pc.Handled?
      && (match after.pc
          case Start => false
          case Deciding => e.ReadRow? && before.pc.Start? && before.retry <= MAX_RETRY
          case EscalatingFailure(_) => e.DecideFails? && before.pc.Deciding? && before.retry <= MAX_RETRY
          case Republishing(_, _) => e.ReadFails? && before.pc.Start? && before.retry <= MAX_RETRY
          case Handled(_) => true)
  }

  lemma MessageEventsMoveOneEntry(w: World, e: Event)
    requires Shape(w) && Enabled(w, e) && IsMessageEvent(e)
    ensures OneEntryMoves(w, e, Next(w, e))
  {
  }

  lemma OtherEventsLeaveReimbs(w: World, e: Event)
    requires Enabled(w, e) && !IsMessageEvent(e) && !e.PublishItem?
    ensures Next(w, e).reimbs == w.reimbs
  {
  }

  lemma PublishAppendsReimb(w: World, e: Event)
    requires Shape(w) && Enabled(w, e) && e.PublishItem?
    ensures var w' := Next(w, e);
      && |w.reimbs| <= |w'.reimbs| <= |w.reimbs| + 1 && w'.reimbs[..|w.reimbs|] == w.reimbs
      && (|w'.reimbs| > |w.reimbs| ==> AppendedReimb(w, e, w'.reimbs[|w.reimbs|]))
  {
  }

  lemma RepublishAppendsReimb(w: World, e: Event)
    requires Shape(w) && Enabled(w, e) && IsMessageEvent(e)
    ensures |Next(w, e).reimbs| > |w.reimbs| ==> AppendedReimb(w, e, Next(w, e).reimbs[|w.reimbs|])
  {
    MessageEventsMoveOneEntry(w, e);
    if e.Republish? {
      CopyIsAppended(w, e.n, e.delivery, e.stamp);
    }
  }

  lemma CopyIsAppended(w: World, n: nat, delivery: Delivery, stamp: nat)
    requires Shape(w) && Enabled(w, Republish(n, delivery, stamp))
    ensures var w' := Next(w, Republish(n, delivery, stamp));
      |w'.reimbs| > |w.reimbs| ==> AppendedReimb(w, Republish(n, delivery, stamp), w'.reimbs[|w.reimbs|])
  {
  }

  lemma ReimbsMoveOnly(w: World, e: Event)
    requires Shape(w) && Enabled(w, e)
    ensures ReimbsMove(w, e, Next(w, e))
  {
    if IsMessageEvent(e) {
      MessageEventsMoveOneEntry(w, e);
      RepublishAppendsReimb(w, e);
      OneEntryIsAReimbsMove(w, e, Next(w, e));
    } else if e.PublishItem? {
      PublishAppendsReimb(w, e);
      AppendIsAReimbsMove(w, e, Next(w, e));
    } else {
      OtherEventsLeaveReimbs(w, e);
    }
  }

  lemma OneEntryIsAReimbsMove(w: World, e: Event, w': World)
    requires OneEntryMoves(w, e, w') && (|w'.reimbs| > |w.reimbs| ==> AppendedReimb(w, e, w'.reimbs[|w.reimbs|]))
    ensures ReimbsMove(w, e, w')
  {
    forall n: nat | n < |w.reimbs| ensures ReimbMoves(w, w.reimbs[n], w'.reimbs[n]) {
      assert w'.reimbs[n] == w'.reimbs[..|w.reimbs|][n];
    }
  }

  lemma AppendIsAReimbsMove(w: World, e: Event, w': World)
    requires |w.reimbs| <= |w'.reimbs| <= |w.reimbs| + 1 && w'.reimbs[..|w.reimbs|] == w.reimbs
    requires |w'.reimbs| > |w.reimbs| ==> AppendedReimb(w, e, w'.reimbs[|w.reimbs|])
    ensures ReimbsMove(w, e, w')
    ensures Shape(w) ==> forall n :: 0 <= n < |w'.reimbs| ==> MessageShape(w'.reimbs[n])
  {
    forall n: nat | n < |w.reimbs| ensures w'.reimbs[n] == w.reimbs[n] {
      assert w'.reimbs[n] == w'.reimbs[..|w.reimbs|][n];
    }
  }

  lemma OtherMessagesStay(w: World, e: Event, n: nat)
    requires Shape(w) && Enabled(w, e) && n < |w.reimbs| && !(IsMessageEvent(e) && e.n == n)
    ensures n < |Next(w, e).reimbs| && Next(w, e).reimbs[n] == w.reimbs[n]
  {
    var w' := Next(w, e);
    if IsMessageEvent(e) {
      MessageEventsMoveOneEntry(w, e);
      assert w'.reimbs[n] == w'.reimbs[..|w.reimbs|][n];
    } else if e.PublishItem? {
      PublishAppendsReimb(w, e);
      assert w'.reimbs[n] == w'.reimbs[..|w.reimbs|][n];
    } else {
      OtherEventsLeaveReimbs(w, e);
    }
  }

  lemma OneEntryKeepsShape(w: World, e: Event, w': World)
    requires Shape(w) && OneEntryMoves(w, e, w')
    ensures forall n :: 0 <= n < |w'.reimbs| ==> MessageShape(w'.reimbs[n])
  {
    forall n | 0 <= n < |w'.reimbs| ensures MessageShape(w'.reimbs[n]) {
      if n < |w.reimbs| {
        assert w'.reimbs[n] == w'.reimbs[..|w.reimbs|][n];
        assert MessageShape(w.reimbs[n]);
      }
    }
  }

  lemma MessageShapesStep(w: World, e: Event)
    requires Shape(w) && Enabled(w, e)
    ensures forall n :: 0 <= n < |Next(w, e).reimbs| ==> MessageShape(Next(w, e).reimbs[n])
  {
    var w' := Next(w, e);
    if IsMessageEvent(e) {
      MessageEventsMoveOneEntry(w, e);
      OneEntryKeepsShape(w, e, w');
    } else if e.PublishItem? {
      PublishAppendsReimb(w, e);
      AppendIsAReimbsMove(w, e, w');
    } else {
      OtherEventsLeaveReimbs(w, e);
    }
  }

  lemma ShapeStep(w: World, e: Event)
    requires Shape(w) && Enabled(w, e)
    ensures Shape(Next(w, e))
  {
    MessageShapesStep(w, e);
    if IsItemEvent(e) {
      OpMovesOnly(w, e);
      OpMovesKeepShape(w, e, Next(w, e));
    } else if IsRequestEvent(e) {
      RequestEventsKeepShape(w, e);
    } else {
      assert Next(w, e).requests == w.requests;
    }
  }

  // Everything the proofs below need to know about one event.
  ghost predicate Moves(w: World, e: Event, w': World) {
    && RowsMove(w, e, w') && HoldersMove(w, e, w') && ReimbsMove(w, e, w')
    && Shape(w') && w'.clock == w.clock + 1
  }

  lemma MovesOnly(w: World, e: Event)
    requires Shape(w) && Enabled(w, e)
    ensures Moves(w, e, Next(w, e))
  {
    ShapeStep(w, e);
    RowsMoveOnly(w, e);
    HoldersMoveOnly(w, e);
    ReimbsMoveOnly(w, e);
  }

  lemma OwnerKept(w: World, e: Event, w': World, m: nat, i: nat)
    requires Owners(w) && Moves(w, e, w') && Holds(w', m, i)
    ensures Exists(w'.rows, Held(w', m, i)) && w'.rows[Held(w', m, i)].row.key == w'.requests[m].items[i].key
  {
    assert HolderMoves(w, e, w', m, i);
    if e != InsertPending(m, i) {
      var u := Held(w, m, i);
      assert SlotMoves(w, e, w.rows[u], w'.rows[u], u);
    }
  }

  lemma OwnersKept(w: World, e: Event, w': World)
    requires Owners(w) && Moves(w, e, w')
    ensures Owners(w')
  {
    forall m: nat, i: nat | Holds(w', m, i)
      ensures Exists(w'.rows, Held(w', m, i)) && w'.rows[Held(w', m, i)].row.key == w'.requests[m].items[i].key
    {
      OwnerKept(w, e, w', m, i);
    }
    forall m: nat, i: nat, m': nat, i': nat | Holds(w', m, i) && Holds(w', m', i') && Held(w', m, i) == Held(w', m', i')
      ensures m == m' && i == i'
    {
      assert HolderMoves(w, e, w', m, i) && HolderMoves(w, e, w', m', i');
    }
  }

  lemma UnpublishedRowKept(w: World, e: Event, w': World, m: nat, i: nat)
    requires Owners(w) && Unpublished(w) && RowsMove(w, e, w') && Holds(w, m, i) && w.requests[m].ops[i].Inserted?
    ensures Held(w, m, i) < |w'.rows| && w'.rows[Held(w, m, i)] == w.rows[Held(w, m, i)]
  {
    var u := Held(w, m, i);
    assert SlotMoves(w, e, w.rows[u], w'.rows[u], u);
  }

  lemma NoNewMessageFor(w: World, e: Event, w': World, u: nat)
    requires Owners(w) && ReimbsMove(w, e, w') && NoMessageFor(w, u)
    requires e.PublishItem? && Holds(w, e.m, e.i) ==> Held(w, e.m, e.i) != u
    ensures NoMessageFor(w', u)
  {
    forall n | 0 <= n < |w'.reimbs| ensures w'.reimbs[n].uuid != u {
      assert n < |w.reimbs| ==> ReimbMoves(w, w.reimbs[n], w'.reimbs[n]);
      assert n == |w.reimbs| ==> AppendedReimb(w, e, w'.reimbs[n]);
    }
  }

  lemma UnpublishedKept(w: World, e: Event, w': World)
    requires Owners(w) && Unpublished(w) && Past(w) && Moves(w, e, w')
    ensures Unpublished(w')
  {
    forall m: nat, i: nat | Holds(w', m, i) && w'.requests[m].ops[i].Inserted?
      ensures
        && HasStatus(w'.rows, Held(w', m, i), Pending)
        && w'.rows[Held(w', m, i)].row.updatedAt < w'.requests[m].ops[i].since
        && NoMessageFor(w', Held(w', m, i))
    {
      assert HolderMoves(w, e, w', m, i);
      if e != InsertPending(m, i) {
        UnpublishedRowKept(w, e, w', m, i);
        NoNewMessageFor(w, e, w', Held(w', m, i));
      } else {
        NoNewMessageFor(w, e, w', |w.rows|);
      }
    }
  }

  lemma PastKept(w: World, e: Event, w': World)
    requires Owners(w) && Past(w) && Moves(w, e, w')
    ensures Past(w')
  {
  }

  lemma NeverStaleKept(w: World, e: Event, w': World)
    requires Inv(w) && Moves(w, e, w')
    ensures NeverStaleWhilePending(w')
  {
  }

  lemma KeysKept(w: World, e: Event, w': World)
    requires UniqueKeys(w.rows) && Moves(w, e, w')
    ensures UniqueKeys(w'.rows)
  {
  }

  lemma InvStep(w: World, e: Event)
    requires Inv(w) && Enabled(w, e)
    ensures Inv(Next(w, e))
  {
    var w' := Next(w, e);
    MovesOnly(w, e);
    OwnersKept(w, e, w');
    UnpublishedKept(w, e, w');
    PastKept(w, e, w');
    NeverStaleKept(w, e, w');
    KeysKept(w, e, w');
  }

  lemma InitInv(start: World)
    requires Init(start)
    ensures Inv(start)
  {
  }

  /** The structural invariant holds in every state of every run. */
  lemma {:induction false} InvAlways(w: World, events: seq<Event>)
    requires Inv(w) && IsRun(w, events)
    ensures Inv(After(w, events))
    decreases |events|
  {
    if |events| > 0 {
      InvStep(w, events[0]);
      InvAlways(Next(w, events[0]), events[1..]);
    }
  }
}
