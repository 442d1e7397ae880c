/** Handlings nothing interrupts: what the handlers' methods leave behind when no other event falls in. */
module Uninterrupted {
  import opened Models
  import opened Repository
  import opened Protocol
  import opened Services
  import opened Handling
  import G = DecisionGraph

  lemma AfterOne(w: World, a: Event)
    requires Enabled(w, a)
    ensures IsRun(w, [a]) && After(w, [a]) == Next(w, a)
  {
    ReachesOne(w, a);
  }

  lemma AfterTwo(w: World, a: Event, b: Event)
    requires Enabled(w, a) && Enabled(Next(w, a), b)
    ensures IsRun(w, [a, b]) && After(w, [a, b]) == Next(Next(w, a), b)
  {
    ReachesTwo(w, a, Next(w, a), b);
  }

  lemma AfterThree(w: World, a: Event, b: Event, c: Event)
    requires Enabled(w, a) && Enabled(Next(w, a), b) && Enabled(Next(Next(w, a), b), c)
    ensures IsRun(w, [a, b, c]) && After(w, [a, b, c]) == Next(Next(Next(w, a), b), c)
  {
    ReachesThree(w, a, Next(w, a), b, Next(Next(w, a), b), c);
  }

  // ---------------------------------------------------------------- the agent

  predicate LastFailure(w: World, event: FailureEvent, uuid: nat) {
    |w.failures| > 0 && w.failures[|w.failures| - 1] == Failure(event, None, Some(uuid))
  }

  function Decided(w: World, n: nat, f: MessageFaults): Option<Decision>
    requires n < |w.reimbs|
  {
    DecisionFor(w.rows, w.reimbs[n].uuid, f)
  }

  /** Fail to a human: if the payload, a model call or the write raises, the handling still ends, and the row is at
      human-review explained by a history that ends in stage `decide`, its receipts untouched; or the
      escalation failed too, the table is unchanged and the failure log names the uuid. */
  lemma UninterruptedFailure(w: World, n: nat, f: MessageFaults)
    requires ReachesGraph(w, n, f) && Decided(w, n, f).None?
    ensures IsRun(w, MessageEvents(w, n, f))
    ensures var w' := After(w, MessageEvents(w, n, f));
      var u := w.reimbs[n].uuid;
      if f.escalateOk then
        && HasStatus(w'.rows, u, HumanReview)
        && w'.rows[u].row.reason == History(DecisionStageFailure,
          Appended(w.reimbs[n].errors, Stage.Decide, f.decideCause))
        && w'.rows[u].row.receipts == w.rows[u].row.receipts
        && w'.rows == w.rows[u := w'.rows[u]] && LastFailure(w', DecisionFailed, u)
      else
        w'.rows == w.rows && LastFailure(w', RowEscalationFailed, u)
  {
    assert MessageEvents(w, n, f) == [ReadRow(n), DecideFails(n, f.decideCause), EscalateFailure(n, f.escalateOk)];
    var w1 := Next(w, ReadRow(n));
    assert w1.reimbs[n].pc.Deciding? && w1.rows == w.rows;
    var w2 := Next(w1, DecideFails(n, f.decideCause));
    AfterThree(w, ReadRow(n), DecideFails(n, f.decideCause), EscalateFailure(n, f.escalateOk));
  }

  /** Whatever the faults, a handling writes nothing, one complete decision, or one explained
      escalation; the two exclude each other. */
  lemma UninterruptedWrites(w: World, n: nat, f: MessageFaults)
    requires FreshStart(w, n)
    ensures IsRun(w, MessageEvents(w, n, f))
    ensures var w' := After(w, MessageEvents(w, n, f));
      || w'.rows == w.rows
      || (ReachesGraph(w, n, f) && Decided(w, n, f).Some? && Decided(w, n, f).value.status != Pending
          && w'.rows == WithDecision(w, n, Decided(w, n, f).value))
      || (ReachesGraph(w, n, f) && Decided(w, n, f).None?
          && HasStatus(w'.rows, w.reimbs[n].uuid, HumanReview)
            && w'.rows == w.rows[w.reimbs[n].uuid := w'.rows[w.reimbs[n].uuid]])
  {
    if f.readFails {
      FailedReadWritesNothing(w, n, f);
    } else if !ReachesGraph(w, n, f) {
      AfterOne(w, ReadRow(n));
    } else if Decided(w, n, f).Some? {
      DecisionIsStoredWhole(w, n, f);
    } else {
      UninterruptedFailure(w, n, f);
    }
  }

  lemma FailedReadWritesNothing(w: World, n: nat, f: MessageFaults)
    requires FreshStart(w, n) && f.readFails
    ensures IsRun(w, MessageEvents(w, n, f)) && After(w, MessageEvents(w, n, f)).rows == w.rows
  {
    var w1 := Next(w, ReadFails(n, f.readCause));
    assert w1.reimbs[n].pc == Republishing(w.clock + 1, f.readCause) && w1.rows == w.rows;
    AfterTwo(w, ReadFails(n, f.readCause), Republish(n, f.republish, w.clock + 1));
  }

  // The table with one decision written one tick after the read.
  function WithDecision(w: World, n: nat, d: Decision): seq<Slot>
    requires n < |w.reimbs|
  {
    Repository.Decided(w.rows, w.reimbs[n].uuid, d.status, Rule(d.why), d.receipts, w.clock + 1)
  }

  lemma DecisionIsStoredWhole(w: World, n: nat, f: MessageFaults)
    requires ReachesGraph(w, n, f) && Decided(w, n, f).Some?
    ensures IsRun(w, MessageEvents(w, n, f))
    ensures After(w, MessageEvents(w, n, f)).rows == WithDecision(w, n, Decided(w, n, f).value)
  {
    var d := Decided(w, n, f).value;
    DecisionsAreStorable(w.rows, w.reimbs[n].uuid, f);
    assert MessageEvents(w, n, f) == [ReadRow(n), Event.Decide(n, d)];
    var w1 := Next(w, ReadRow(n));
    assert w1.reimbs[n].pc.Deciding? && w1.rows == w.rows;
    AfterTwo(w, ReadRow(n), Event.Decide(n, d));
  }

  /** End to end: a message that passes the guards leaves its row at the status and reason the policy prescribes
      for what was extracted, every extracted column stored, exactly when the payload, the model calls and the
      database all work and the columns fit; otherwise at human-review with its columns untouched. */
  lemma UninterruptedDecision(w: World, n: nat, f: MessageFaults)
    requires ReachesGraph(w, n, f)
    ensures IsRun(w, MessageEvents(w, n, f))
    ensures var w' := After(w, MessageEvents(w, n, f));
      var u := w.reimbs[n].uuid;
      var o := f.oracle;
      if Decides(f) then
        var (status, why) := G.PolicyDecision(o.extraction.value, o.today, G.VerdictOr(o));
        && HasStatus(w'.rows, u, status) && w'.rows[u].row.reason == Rule(why)
        && Stored(w.rows[u].row.receipts, G.StoredReceipts(G.PolicyWrite(o)), w'.rows[u].row.receipts)
      else
        f.escalateOk ==> HasStatus(w'.rows, u, HumanReview) && w'.rows[u].row.receipts == w.rows[u].row.receipts
  {
    var o := GraphOracle(w.rows, w.reimbs[n].uuid, f);
    assert o.extraction == f.oracle.extraction && o.today == f.oracle.today && o.verdict == f.oracle.verdict;
    if Decides(f) {
      assert G.PolicyWrite(o) == G.PolicyWrite(f.oracle);
      DecisionIsStoredWhole(w, n, f);
    } else {
      UninterruptedFailure(w, n, f);
    }
  }

  // ---------------------------------------------------------------- the publisher

  /** A publish that raises leaves the table as if the row had never been inserted, its uuid burnt,
      exactly when the compensating delete works; otherwise the row stays and the log names it. */
  lemma UninterruptedCompensation(w: World, m: nat, i: nat, f: ItemFaults)
    requires Unstarted(w, m, i) && ItemAt(w, m, i).valid && w.requests[m].retry <= MAX_RETRY
    requires !f.writeFails && !KeyTaken(w.rows, ItemAt(w, m, i).key) && (f.buildFails || f.publish.Raises())
    ensures IsRun(w, PublishPendingEvents(w, m, i, f))
    ensures var w' := After(w, PublishPendingEvents(w, m, i, f));
      && w'.rows == w.rows + [if f.deleteOk then Absent else Present(PendingRow(ItemAt(w, m, i).key, w.clock))]
      && (f.deleteOk ==> w'.failures == w.failures)
      && (!f.deleteOk ==>
            w'.failures == w.failures + [Failure(CompensatingDeleteFailed, Some(ItemAt(w, m, i)), Some(|w.rows|))])
      && (w'.reimbs == w.reimbs <==> f.buildFails || !f.publish.Reached())
  {
    var e := if f.buildFails then BuildFails(m, i, f.publishCause)
        else PublishItem(m, i, f.publish, w.clock + 1, f.publishCause);
    var w1 := Next(w, InsertPending(m, i));
    assert PublishPendingEvents(w, m, i, f) == [InsertPending(m, i), e, Delete(m, i, f.deleteOk)];
    InsertLeavesOneHolder(w, w1, m, i);
    InsertThenFailedPublish(w, w1, m, i, f, e);
    DeleteSettlesTheInsert(w, Next(w1, e), m, i, f.deleteOk);
    AfterThree(w, InsertPending(m, i), e, Delete(m, i, f.deleteOk));
  }

  lemma InsertLeavesOneHolder(w: World, w1: World, m: nat, i: nat)
    requires Unstarted(w, m, i) && Enabled(w, InsertPending(m, i)) && w1 == Next(w, InsertPending(m, i))
    ensures OpIs(w1, m, i) && w1.requests[m].ops[i] == Op.Inserted(|w.rows|, w.clock + 1) && w1.clock == w.clock + 1
    ensures w1.rows == w.rows + [Present(PendingRow(ItemAt(w, m, i).key, w.clock))] && w1.failures == w.failures
    ensures w1.reimbs == w.reimbs && ItemAt(w1, m, i) == ItemAt(w, m, i)
  {
  }

  lemma DeleteSettlesTheInsert(w: World, w2: World, m: nat, i: nat, ok: bool)
    requires Unstarted(w, m, i) && OpIs(w2, m, i) && w2.requests[m].ops[i].Compensating?
      && w2.requests[m].ops[i].uuid == |w.rows|
    requires w2.rows == w.rows + [Present(PendingRow(ItemAt(w, m, i).key, w.clock))]
    ensures Next(w2, Delete(m, i, ok)).rows == w.rows + [if ok then Absent
      else Present(PendingRow(ItemAt(w, m, i).key, w.clock))]
    ensures Next(w2, Delete(m, i, ok)).reimbs == w2.reimbs
    ensures Next(w2, Delete(m, i, ok)).failures
         == if ok then w2.failures
           else w2.failures + [Failure(CompensatingDeleteFailed, Some(ItemAt(w2, m, i)), Some(|w.rows|))]
  {
  }

  lemma InsertThenFailedPublish(w: World, w1: World, m: nat, i: nat, f: ItemFaults, e: Event)
    requires OpIs(w1, m, i) && w1.requests[m].ops[i] == Op.Inserted(|w.rows|, w.clock + 1) && w1.clock == w.clock + 1
    requires f.buildFails || f.publish.Raises()
    requires e == if f.buildFails then BuildFails(m, i, f.publishCause)
      else PublishItem(m, i, f.publish, w.clock + 1, f.publishCause)
    ensures Enabled(w1, e) && OpIs(Next(w1, e), m, i) && Next(w1, e).requests[m].ops[i].Compensating?
    ensures Next(w1, e).requests[m].ops[i].uuid == |w.rows|
    ensures Next(w1, e).rows == w1.rows && Next(w1, e).failures == w1.failures
    ensures ItemAt(Next(w1, e), m, i) == ItemAt(w1, m, i)
    ensures Next(w1, e).reimbs == w1.reimbs <==> f.buildFails || !f.publish.Reached()
  {
    assert |Next(w1, e).reimbs| == |w1.reimbs| + if f.buildFails || !f.publish.Reached() then 0 else 1;
  }

  // ---------------------------------------------------------------- which run the faults select

  /** What one item comes to, for every combination of faults, on either side of the retry ceiling. */
  lemma ItemComesTo(w: World, m: nat, i: nat, f: ItemFaults)
    requires Unstarted(w, m, i)
    ensures var key := w.requests[m].items[i].key;
      var taken := exists u :: 0 <= u < |w.rows| && w.rows[u].Present? && w.rows[u].row.key == key;
      var again := if f.requeue.Delivered? then REQUEUED else LOGGED;
      ItemResult(w, m, i, f) ==
        if !w.requests[m].items[i].valid then INVALID
        else if w.requests[m].retry > 3 then (if f.writeFails then LOGGED else if taken then DUPLICATE else ESCALATED)
        else if f.writeFails then again
        else if taken then DUPLICATE
        else if !f.buildFails && f.publish.Delivered? then PUBLISHED
        else again
  {
  }

  /** The steps that lead there: past the ceiling a single one; up to it an insert, a publish, and after a failed
      publish a delete and a requeue, in that order; nothing is published that was not inserted. */
  lemma ItemTakesTheSteps(w: World, m: nat, i: nat, f: ItemFaults)
    requires Unstarted(w, m, i)
    ensures var key := w.requests[m].items[i].key;
      var taken := exists u :: 0 <= u < |w.rows| && w.rows[u].Present? && w.rows[u].row.key == key;
      var publish := if f.buildFails then BuildFails(m, i, f.publishCause)
                     else PublishItem(m, i, f.publish, w.clock + 1, f.publishCause);
      ItemEvents(w, m, i, f) ==
        if !w.requests[m].items[i].valid then [RejectItem(m, i)]
        else if w.requests[m].retry > 3 then
          (if !f.writeFails && taken then [DropDuplicate(m, i)] else [Event.EscalateItem(m, i, !f.writeFails)])
        else if f.writeFails then [InsertFails(m, i, f.writeCause), RequeueItem(m, i, f.requeue)]
        else if taken then [DropDuplicate(m, i)]
        else if !f.buildFails && f.publish.Delivered? then [InsertPending(m, i), publish]
        else [InsertPending(m, i), publish, Delete(m, i, f.deleteOk), RequeueItem(m, i, f.requeue)]
  {
  }

  /** The steps of one message: past the ceiling its escalation alone; a failed read and its republication; a read
      that drops it; or a read, and then the decision or the record of its failure and the escalation. */
  lemma MessageTakesTheSteps(w: World, n: nat, f: MessageFaults)
    requires n < |w.reimbs|
    ensures var r := w.reimbs[n];
      var gone := r.uuid >= |w.rows| || w.rows[r.uuid].Absent?;
      MessageEvents(w, n, f) ==
        if r.retry > 3 then [OverCeiling(n, f.escalateOk)]
        else if f.readFails then [ReadFails(n, f.readCause), Republish(n, f.republish, w.clock + 1)]
        else if gone || r.publishedAt < w.rows[r.uuid].row.updatedAt then [ReadRow(n)]
        else if Decides(f) then [ReadRow(n), Event.Decide(n, DecisionOf(G.PolicyWrite(f.oracle)))]
        else [ReadRow(n), DecideFails(n, f.decideCause), EscalateFailure(n, f.escalateOk)]
  {
    if Exists(w.rows, w.reimbs[n].uuid) { TurnIs(w, n, f); }
  }
}
