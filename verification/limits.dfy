/** Where the guarantees stop: three concrete runs from the empty system in which an agent write overwrites a
    decision, and, for every state, the exact condition on an event for such a write to become possible. */
module Limits {
  import opened Models
  import opened Repository
  import opened Protocol
  import opened Invariants
  import opened LinearToken
  import opened Redelivery
  import Ledgers

  const ITEM := Item(Key("REQ-1", "ana@example.com"), true, "{}")
  const CAUSE := Cause("2026-08-10T00:00:00+00:00", "TimeoutError", "")
  const RECEIPT := Receipts(Some(50.0), Some(1), Some("BRL"))

  // One item posted and taken up by a publisher.
  lemma PostedAndTaken(start: World) returns (events: seq<Event>, w: World)
    requires Init(start)
    ensures Reaches(start, events, w) && events == [Post([ITEM], Delivered), Take(0)]
    ensures Unstarted(w, 0, 0) && w.requests == [NewRequest(0, [], [ITEM]).(phase := InHand)]
    ensures w == start.(requests := w.requests, accepted := w.accepted, submitted := 1, clock := 2)
  {
    var w1 := Next(start, Post([ITEM], Delivered));
    ReachesTwo(start, Post([ITEM], Delivered), w1, Take(0));
    assert w1.requests == [NewRequest(0, [], [ITEM])];
    events, w := [Post([ITEM], Delivered), Take(0)], Next(w1, Take(0));
  }

  // Inserted as row 0 and published as message 0; the publisher need not have heard of it.
  lemma InsertedAndPublished(start: World, before: seq<Event>, w0: World, delivery: Delivery)
      returns (events: seq<Event>, w: World)
    requires Reaches(start, before, w0) && w0.rows == [] && w0.reimbs == [] && w0.audit == [] && w0.clock == 2
    requires Unstarted(w0, 0, 0) && w0.requests == [NewRequest(0, [], [ITEM]).(phase := InHand)]
    requires delivery.Reached()
    ensures Reaches(start, events, w)
    ensures events == before + [InsertPending(0, 0)] + [PublishItem(0, 0, delivery, 3, CAUSE)]
    ensures w.rows == [Present(PendingRow(ITEM.key, 2))] && w.audit == [] && w.failures == w0.failures && w.clock == 4
    ensures w.reimbs == [NewReimb(0, 0, 3, [])]
    ensures OpIs(w, 0, 0) && (delivery.Raises() ==> w.requests[0].ops[0] == Compensating(0, Publish, CAUSE))
    ensures w.transitions == w0.transitions && w.escalatedInserts == w0.escalatedInserts
  {
    var e := InsertPending(0, 0);
    var w1 := Next(w0, e);
    Extend(start, before, w0, e);
    assert OpIs(w1, 0, 0) && w1.requests[0].ops[0] == Op.Inserted(0, 3) && w1.clock == 3;
    var e' := PublishItem(0, 0, delivery, 3, CAUSE);
    Extend(start, before + [e], w1, e');
    events, w := before + [e] + [e'], Next(w1, e');
  }

  lemma PublishedOnce(start: World) returns (events: seq<Event>, w: World)
    requires Init(start)
    ensures Reaches(start, events, w) && forall e :: e in events ==> CrashFree(e) && !e.ReviewRow?
    ensures w.rows == [Present(PendingRow(ITEM.key, 2))] && w.audit == [] && w.clock == 4
    ensures w.reimbs == [NewReimb(0, 0, 3, [])]
  {
    events, w := PostedAndTaken(start);
    events, w := InsertedAndPublished(start, events, w, Delivered);
  }

  // The same world one tick later, with one message's progress changed.
  function Moved(w: World, n: nat, phase: Phase, pc: AgentPc): World
    requires n < |w.reimbs|
  {
    w.(reimbs := w.reimbs[n := w.reimbs[n].(phase := phase, pc := pc)], clock := w.clock + 1)
  }

  lemma Taken(start: World, before: seq<Event>, w: World, n: nat)
    requires Reaches(start, before, w) && n < |w.reimbs| && w.reimbs[n].phase.Waiting?
    ensures Reaches(start, before + [AgentTake(n)], Moved(w, n, InHand, Start))
  {
    Extend(start, before, w, AgentTake(n));
  }

  lemma ReadRaised(start: World, before: seq<Event>, w: World, n: nat)
    requires Reaches(start, before, w) && PcIs(w, n) && w.reimbs[n].pc.Start? && w.reimbs[n].retry <= MAX_RETRY
    ensures Reaches(start, before + [ReadFails(n, CAUSE)], Moved(w, n, InHand, Republishing(w.clock + 1, CAUSE)))
  {
    Extend(start, before, w, ReadFails(n, CAUSE));
  }

  lemma ReadFresh(start: World, before: seq<Event>, w: World, n: nat)
    requires Reaches(start, before, w) && PcIs(w, n) && w.reimbs[n].pc.Start? && w.reimbs[n].retry <= MAX_RETRY
    requires Exists(w.rows, w.reimbs[n].uuid) && w.rows[w.reimbs[n].uuid].row.updatedAt <= w.reimbs[n].publishedAt
    ensures Reaches(start, before + [ReadRow(n)], Moved(w, n, InHand, Deciding))
  {
    Extend(start, before, w, ReadRow(n));
  }

  // The world after one delivered republication, stamped now.
  function WithCopy(w: World, n: nat): World
    requires n < |w.reimbs| && w.reimbs[n].pc.Republishing?
  {
    var r, w' := w.reimbs[n], Moved(w, n, InHand, Handled(MSG_REQUEUED));
    w'.(reimbs := w'.reimbs + [NewReimb(r.uuid, r.retry + 1, w.clock, Appended(r.errors, Resolve, r.pc.cause))])
  }

  lemma Republished(start: World, before: seq<Event>, w: World, n: nat)
    requires Reaches(start, before, w) && PcIs(w, n) && w.reimbs[n].pc.Republishing? && w.reimbs[n].pc.since <= w.clock
    ensures Reaches(start, before + [Republish(n, Delivered, w.clock)], WithCopy(w, n))
  {
    Extend(start, before, w, Republish(n, Delivered, w.clock));
  }

  lemma Dropped(start: World, before: seq<Event>, w: World, n: nat, crash: bool) returns (events: seq<Event>)
    requires Reaches(start, before, w) && PcIs(w, n) && w.reimbs[n].pc.Handled?
    ensures Reaches(start, events, if crash then Moved(w, n, Waiting, Start)
      else Moved(w, n, Committed, w.reimbs[n].pc))
  {
    var e := if crash then AgentCrash(n) else AgentCommit(n);
    Extend(start, before, w, e);
    events := before + [e];
  }

  // A message whose read fails comes back one retry later; if the agent crashes before its commit,
  // the original comes back too.
  lemma RetriedOnce(start: World, before: seq<Event>, w0: World, n: nat, crash: bool)
        returns (events: seq<Event>, w: World)
    requires Reaches(start, before, w0)
    requires n < |w0.reimbs| && w0.reimbs[n].phase.Waiting? && w0.reimbs[n].retry <= MAX_RETRY
    ensures Reaches(start, events, w)
    ensures w.rows == w0.rows && w.audit == w0.audit && w.clock == w0.clock + 4
    ensures |w.reimbs| == |w0.reimbs| + 1
    ensures w.reimbs[|w0.reimbs|] == NewReimb(w0.reimbs[n].uuid, w0.reimbs[n].retry + 1, w0.clock + 2,
      Appended(w0.reimbs[n].errors, Resolve, CAUSE))
    ensures crash ==> w.reimbs[n] == w0.reimbs[n].(pc := Start)
  {
    Taken(start, before, w0, n);
    var w1 := Moved(w0, n, InHand, Start);
    ReadRaised(start, before + [AgentTake(n)], w1, n);
    var w2 := Moved(w1, n, InHand, Republishing(w1.clock + 1, CAUSE));
    Republished(start, before + [AgentTake(n)] + [ReadFails(n, CAUSE)], w2, n);
    var w3 := WithCopy(w2, n);
    events := Dropped(start, before + [AgentTake(n)] + [ReadFails(n, CAUSE)] + [Republish(n, Delivered, w2.clock)],
        w3, n, crash);
    w := if crash then Moved(w3, n, Waiting, Start) else Moved(w3, n, Committed, w3.reimbs[n].pc);
  }

  lemma Written(start: World, before: seq<Event>, w: World, n: nat, d: Decision)
    requires Reaches(start, before, w) && ReceiptsOk(d.receipts)
    requires PcIs(w, n) && w.reimbs[n].pc.Deciding? && Exists(w.rows, w.reimbs[n].uuid)
    ensures Reaches(start, before + [Event.Decide(n, d)], AfterWrite(w, n, d))
  {
    Extend(start, before, w, Event.Decide(n, d));
  }

  // The world after one decision has been written.
  function AfterWrite(w: World, n: nat, d: Decision): World
    requires n < |w.reimbs| && Exists(w.rows, w.reimbs[n].uuid)
  {
    Moved(w, n, InHand, Handled(RESOLVED)).(
      rows := Decided(w.rows, w.reimbs[n].uuid, d.status, Rule(d.why), d.receipts, w.clock),
      transitions := w.transitions + [Transition(Pending, d.status)])
  }

  // Taken, read and decided.
  lemma DecidedOnce(start: World, before: seq<Event>, w0: World, n: nat, d: Decision)
        returns (events: seq<Event>, w: World)
    requires Reaches(start, before, w0) && ReceiptsOk(d.receipts)
    requires n < |w0.reimbs| && w0.reimbs[n].phase.Waiting? && w0.reimbs[n].retry <= MAX_RETRY
    requires Exists(w0.rows, w0.reimbs[n].uuid) && w0.rows[w0.reimbs[n].uuid].row.updatedAt <= w0.reimbs[n].publishedAt
    ensures Reaches(start, events, w) && events == before + [AgentTake(n)] + [ReadRow(n)] + [Event.Decide(n, d)]
    ensures w.rows == Decided(w0.rows, w0.reimbs[n].uuid, d.status, Rule(d.why), d.receipts, w0.clock + 2)
    ensures w.audit == w0.audit && w.clock == w0.clock + 3
    ensures w.reimbs == w0.reimbs[n := w0.reimbs[n].(phase := InHand, pc := Handled(RESOLVED))]
  {
    Taken(start, before, w0, n);
    var w1 := Moved(w0, n, InHand, Start);
    ReadFresh(start, before + [AgentTake(n)], w1, n);
    var w2 := Moved(w1, n, InHand, Deciding);
    events := before + [AgentTake(n)] + [ReadRow(n)];
    Written(start, events, w2, n, d);
    events := events + [Event.Decide(n, d)];
    w := AfterWrite(w2, n, d);
  }

  const TO_REVIEW := Decision(HumanReview, Judged(""), NO_RECEIPTS)
  const REJECT := Decision(AutoRejected, Judged(""), NO_RECEIPTS)
  const APPROVE := Decision(AutoApproved, Judged(""), NO_RECEIPTS)

  // The decided message 0 is approved by a human, then redelivered because its offset was not committed.
  lemma ApprovedThenRedelivered(start: World, before: seq<Event>, w0: World) returns (events: seq<Event>, w: World)
    requires Reaches(start, before, w0)
    requires HasStatus(w0.rows, 0, HumanReview) && |w0.rows| == 1 && w0.audit == []
    requires |w0.reimbs| == 1 && PcIs(w0, 0) && w0.reimbs[0].retry == 0 && w0.reimbs[0].uuid == 0
    ensures Reaches(start, events, w)
    ensures HasStatus(w.rows, 0, HumanApproved) && w.rows[0].row.updatedAt == w0.clock && w.audit == [Review(0, true)]
      && w.clock == w0.clock + 2
    ensures w.reimbs == [w0.reimbs[0].(phase := Waiting, pc := Start)]
  {
    var e := ReviewRow(0, true, "", RECEIPT, true);
    var w1 := Next(w0, e);
    Extend(start, before, w0, e);
    Extend(start, before + [e], w1, AgentCrash(0));
    events, w := before + [e] + [AgentCrash(0)], Next(w1, AgentCrash(0));
  }

  /** Republishing restamps the message: a redelivered message whose read fails becomes fresher than
      the human's approval, and the graph then overwrites it. The audit trail still says approved. */
  lemma RestampingCanOverwriteAnApproval(start: World) returns (events: seq<Event>, w: World)
    requires Init(start)
    ensures IsRun(start, events) && After(start, events) == w
    ensures w.audit == [Review(0, true)] && HasStatus(w.rows, 0, AutoRejected)
  {
    events, w := PublishedOnce(start);
    events, w := DecidedOnce(start, events, w, 0, TO_REVIEW);
    events, w := ApprovedThenRedelivered(start, events, w);
    events, w := RetriedOnce(start, events, w, 0, false);
    events, w := DecidedOnce(start, events, w, 1, REJECT);
  }

  // Three failed reads in a row, and a fourth whose offset commit the agent does not live to see.
  lemma RetriedTwice(start: World) returns (events: seq<Event>, w: World)
    requires Init(start)
    ensures Reaches(start, events, w)
    ensures w.rows == [Present(PendingRow(ITEM.key, 2))] && |w.reimbs| == 3
    ensures w.reimbs[2].uuid == 0 && w.reimbs[2].retry == 2 && w.reimbs[2].phase.Waiting?
      && w.reimbs[2].publishedAt >= 2
  {
    events, w := PublishedOnce(start);
    var before, w0 := events, w;
    events, w := RetriedOnce(start, before, w0, 0, false);
    assert w.reimbs[1] == NewReimb(0, 1, 6, Appended([], Resolve, CAUSE)) && |w.reimbs| == 2 && w.rows == w0.rows;
    events, w := RetriedOnce(start, events, w, 1, false);
  }

  lemma RetriedPastTheCeiling(start: World) returns (events: seq<Event>, w: World)
    requires Init(start)
    ensures Reaches(start, events, w)
    ensures w.rows == [Present(PendingRow(ITEM.key, 2))] && |w.reimbs| == 5
    ensures w.reimbs[3].uuid == 0 && w.reimbs[3].retry == 3 && w.reimbs[3].phase.Waiting?
      && w.reimbs[3].publishedAt >= 2
    ensures w.reimbs[4].uuid == 0 && w.reimbs[4].retry == 4 && w.reimbs[4].phase.Waiting?
  {
    events, w := RetriedTwice(start);
    events, w := RetriedOnce(start, events, w, 2, false);
    events, w := RetriedOnce(start, events, w, 3, true);
  }

  /** Over the ceiling nothing compares `published_at` with `updated_at`: after a crash the redelivered
      original can auto-approve the row and its own fourth retry then drags it back to human review. */
  lemma OverCeilingCanOverwriteADecision(start: World)
        returns (events: seq<Event>, w: World, events': seq<Event>, w': World)
    requires Init(start)
    ensures Reaches(start, events, w) && HasStatus(w.rows, 0, AutoApproved)
    ensures Reaches(start, events', w') && events <= events' && HasStatus(w'.rows, 0, HumanReview)
  {
    events, w := RetriedPastTheCeiling(start);
    events, w := DecidedOnce(start, events, w, 3, APPROVE);
    var w1 := Next(w, AgentTake(4));
    Extend(start, events, w, AgentTake(4));
    var e := OverCeiling(4, true);
    Extend(start, events + [AgentTake(4)], w1, e);
    events', w' := events + [AgentTake(4)] + [e], Next(w1, e);
  }

  /** The step behind it, for every row and every stamp: an over-ceiling escalation whose write
      succeeds puts an existing row at human-review whatever its status was. */
  lemma OverCeilingIgnoresStatusAndStamp(w: World, n: nat)
    requires Enabled(w, OverCeiling(n, true)) && Exists(w.rows, w.reimbs[n].uuid)
    ensures HasStatus(Next(w, OverCeiling(n, true)).rows, w.reimbs[n].uuid, HumanReview)
    ensures Next(w, OverCeiling(n, true)).transitions == w.transitions + [Transition(Pending, HumanReview)]
  {
  }

  /** Two messages for one pending row, both in work: one agent auto-approves, the other auto-rejects. No read
      fails on a decided row and nothing is over the ceiling; the crash only made the second copy. */
  lemma TwoHandsCanOverwriteADecision(start: World)
        returns (events: seq<Event>, w: World, events': seq<Event>, w': World)
    requires Init(start)
    ensures Reaches(start, events, w) && HasStatus(w.rows, 0, AutoApproved)
    ensures Reaches(start, events', w') && events' == events + [Event.Decide(1, REJECT)]
      && HasStatus(w'.rows, 0, AutoRejected)
  {
    events, w := PublishedOnce(start);
    events, w := RetriedOnce(start, events, w, 0, true);
    Taken(start, events, w, 0);
    events, w := events + [AgentTake(0)], Moved(w, 0, InHand, Start);
    Taken(start, events, w, 1);
    events, w := events + [AgentTake(1)], Moved(w, 1, InHand, Start);
    ReadFresh(start, events, w, 0);
    events, w := events + [ReadRow(0)], Moved(w, 0, InHand, Deciding);
    ReadFresh(start, events, w, 1);
    events, w := events + [ReadRow(1)], Moved(w, 1, InHand, Deciding);
    Written(start, events, w, 0, APPROVE);
    events, w := events + [Event.Decide(0, APPROVE)], AfterWrite(w, 0, APPROVE);
    Written(start, events, w, 1, REJECT);
    events', w' := events + [Event.Decide(1, REJECT)], AfterWrite(w, 1, REJECT);
  }

  // ---------------------------------------------------------------- where compensation and decision meet

  // A publish reported as failed has reached the agent, and its row is about to be deleted, and decided.
  lemma ReadWhileCompensating(start: World) returns (events: seq<Event>, w: World)
    requires Init(start)
    ensures Reaches(start, events, w) && forall e :: e in events ==> CrashFree(e)
    ensures w.rows == [Present(PendingRow(ITEM.key, 2))] && w.failures == []
    ensures OpIs(w, 0, 0) && w.requests[0].ops[0] == Compensating(0, Publish, CAUSE)
    ensures PcIs(w, 0) && w.reimbs == [NewReimb(0, 0, 3, []).(phase := InHand, pc := Deciding)]
  {
    events, w := PostedAndTaken(start);
    events, w := InsertedAndPublished(start, events, w, DeliveredButReported);
    Taken(start, events, w, 0);
    events, w := events + [AgentTake(0)], Moved(w, 0, InHand, Start);
    ReadFresh(start, events, w, 0);
    events, w := events + [ReadRow(0)], Moved(w, 0, InHand, Deciding);
  }

  /** A compensating delete can work and yet leave the row: the agent has decided it first, and no record is
      written. The publisher goes on to requeue the item, which will then be a duplicate. */
  lemma DeleteCanComeTooLate(start: World) returns (events: seq<Event>, w: World)
    requires Init(start)
    ensures Reaches(start, events, w) && (forall e :: e in events ==> CrashFree(e)) && Delete(0, 0, true) in events
    ensures |w.rows| == 1 && HasStatus(w.rows, 0, AutoApproved) && w.failures == []
  {
    events, w := ReadWhileCompensating(start);
    Written(start, events, w, 0, APPROVE);
    events, w := events + [Event.Decide(0, APPROVE)], AfterWrite(w, 0, APPROVE);
    Extend(start, events, w, Delete(0, 0, true));
    events, w := events + [Delete(0, 0, true)], Next(w, Delete(0, 0, true));
  }

  /** The other way round: the row is deleted while the graph runs, whose decision then vanishes. The message counts
      as resolved, and neither the table nor the failure log knows of it. */
  lemma DecisionCanComeTooLate(start: World) returns (events: seq<Event>, w: World)
    requires Init(start)
    ensures Reaches(start, events, w) && (forall e :: e in events ==> CrashFree(e))
      && Event.Decide(0, APPROVE) in events
    ensures w.rows == [Absent] && w.failures == [] && |w.reimbs| == 1 && w.reimbs[0].pc == Handled(RESOLVED)
  {
    events, w := ReadWhileCompensating(start);
    Extend(start, events, w, Delete(0, 0, true));
    events, w := events + [Delete(0, 0, true)], Next(w, Delete(0, 0, true));
    Extend(start, events, w, Event.Decide(0, APPROVE));
    events, w := events + [Event.Decide(0, APPROVE)], Next(w, Event.Decide(0, APPROVE));
  }

  const UNCOUNTED := ReviewRow(0, true, "", RECEIPT, false)

  lemma HonestSoFar(start: World, events: seq<Event>, w: World)
    requires Init(start) && Reaches(start, events, w) && forall e :: e in events ==> CrashFree(e) && Ledgers.Counted(e)
    ensures Inv(w) && Linear(w) && Ledgers.FlowConserved(w)
  {
    assert CrashFreeRun(start, events);
    LinearSoFar(start, events, w);
    Ledgers.LedgersAreHonest(start, events);
  }

  lemma LinearSoFar(start: World, events: seq<Event>, w: World)
    requires Init(start) && CrashFreeRun(start, events) && w == After(start, events)
    ensures Inv(w) && Linear(w)
  {
    InitLinear(start);
    LinearFrom(start, events);
  }

  lemma UncountedReview(w: World)
    requires Inv(w) && Linear(w) && Ledgers.FlowConserved(w) && HasStatus(w.rows, 0, HumanReview)
    ensures Enabled(w, UNCOUNTED) && Next(w, UNCOUNTED).audit == w.audit + [Review(0, true)]
    ensures HasStatus(Next(w, UNCOUNTED).rows, 0, HumanApproved) && !Ledgers.FlowConserved(Next(w, UNCOUNTED))
  {
    Ledgers.FlowBreaksExactlyAtUncountedReviews(w, UNCOUNTED);
  }

  /** A committed review whose re-read fails leaves the transition counter one short. */
  lemma UncountedReviewBreaksTheCounter(start: World) returns (events: seq<Event>, w: World)
    requires Init(start)
    ensures Reaches(start, events, w) && forall e :: e in events ==> CrashFree(e)
    ensures w.audit == [Review(0, true)] && HasStatus(w.rows, 0, HumanApproved) && !Ledgers.FlowConserved(w)
  {
    events, w := PublishedOnce(start);
    events, w := DecidedOnce(start, events, w, 0, TO_REVIEW);
    HonestSoFar(start, events, w);
    UncountedReview(w);
    Extend(start, events, w, UNCOUNTED);
    events, w := events + [UNCOUNTED], Next(w, UNCOUNTED);
  }

  // ---------------------------------------------------------------- for every state

  // An agent write about to hit a row that is no longer pending, and to be counted as leaving pending.
  ghost predicate BadWrite(w: World, e: Event) {
    && Enabled(w, e) && IsAgentWrite(e)
    && !PendingOrGone(w, w.reimbs[e.n].uuid)
  }

  // The condition: no second message of a pending row is taken up while one is in work, no read fails on a
  // decided row, no over-ceiling escalation meets one.
  ghost predicate Heeds(w: World, e: Event) {
    Allowed(w, e) && (e.OverCeiling? && e.ok && e.n < |w.reimbs| ==> PendingOrGone(w, w.reimbs[e.n].uuid))
  }

  lemma HeedingWritesOnlyPendingRows(w: World, e: Event)
    requires Inv(w) && Guarded(w) && Enabled(w, e) && Heeds(w, e)
    ensures !BadWrite(w, e) && Inv(Next(w, e)) && Guarded(Next(w, e))
  {
    GuardedStep(w, e);
    assert e.Decide? || e.EscalateFailure? ==> PastRead(w, e.n);
  }

  // Every event of the run heeds the condition.
  ghost predicate HeedingRun(w: World, events: seq<Event>)
    decreases |events|
  {
    |events| == 0 || (Enabled(w, events[0]) && Heeds(w, events[0]) && HeedingRun(Next(w, events[0]), events[1..]))
  }

  ghost predicate NoBadWrite(w: World, events: seq<Event>)
    requires IsRun(w, events)
    decreases |events|
  {
    |events| == 0 || (!BadWrite(w, events[0]) && NoBadWrite(Next(w, events[0]), events[1..]))
  }

  /** If every event of a run heeds the condition, no agent write in it ever hits a decided row. */
  lemma {:induction false} HeedingRunsAreClean(w: World, events: seq<Event>)
    requires Inv(w) && Guarded(w) && HeedingRun(w, events)
    ensures IsRun(w, events) && NoBadWrite(w, events)
    ensures Inv(After(w, events)) && Guarded(After(w, events))
    decreases |events|
  {
    if |events| > 0 {
      HeedingWritesOnlyPendingRows(w, events[0]);
      HeedingRunsAreClean(Next(w, events[0]), events[1..]);
    }
  }

  // One await away from a write.
  predicate Armed(w: World, n: nat) {
    PcIs(w, n) && ((w.reimbs[n].pc.Start? && w.reimbs[n].retry > MAX_RETRY) || w.reimbs[n].pc.Deciding?
        || w.reimbs[n].pc.EscalatingFailure?)
  }

  function Shot(w: World, n: nat): Event
    requires Armed(w, n)
  {
    if w.reimbs[n].pc.Start? then OverCeiling(n, true)
    else if w.reimbs[n].pc.Deciding? then Event.Decide(n, REJECT)
    else EscalateFailure(n, true)
  }

  lemma Fire(w: World, n: nat)
    requires Armed(w, n) && Exists(w.rows, w.reimbs[n].uuid)
    ensures Enabled(w, Shot(w, n))
    ensures !PendingOrGone(Next(w, Shot(w, n)), w.reimbs[n].uuid)
    ensures |Next(w, Shot(w, n)).reimbs| == |w.reimbs|
    ensures forall m: nat :: m < |w.reimbs| && m != n ==> Next(w, Shot(w, n)).reimbs[m] == w.reimbs[m]
    ensures !PendingOrGone(w, w.reimbs[n].uuid) ==> BadWrite(w, Shot(w, n))
  {
  }

  // Not stale: a read of this message would let the graph run.
  predicate Fresh(w: World, n: nat) {
    n < |w.reimbs| && Exists(w.rows, w.reimbs[n].uuid)
        && w.rows[w.reimbs[n].uuid].row.updatedAt <= w.reimbs[n].publishedAt
  }

  // The rows as they were, and every message but one.
  predicate OnlyMoves(w: World, n: nat, w': World) {
    && w'.rows == w.rows && |w.reimbs| <= |w'.reimbs|
    && forall m: nat :: m < |w.reimbs| && m != n ==> w'.reimbs[m] == w.reimbs[m]
  }

  lemma ArmAtStart(start: World, before: seq<Event>, w: World, n: nat) returns (events: seq<Event>, w': World)
    requires Reaches(start, before, w) && PcIs(w, n) && w.reimbs[n].pc.Start? && Fresh(w, n)
    ensures Reaches(start, events, w') && OnlyMoves(w, n, w') && |w'.reimbs| == |w.reimbs|
    ensures Armed(w', n) && w'.reimbs[n].uuid == w.reimbs[n].uuid
  {
    if w.reimbs[n].retry > MAX_RETRY {
      events, w' := before, w;
    } else {
      ReadFresh(start, before, w, n);
      events, w' := before + [ReadRow(n)], Moved(w, n, InHand, Deciding);
    }
  }

  lemma PastHolds(w: World, n: nat)
    requires Inv(w) && n < |w.reimbs| && Exists(w.rows, w.reimbs[n].uuid)
    ensures w.rows[w.reimbs[n].uuid].row.updatedAt < w.clock
    ensures w.reimbs[n].pc.Republishing? ==> w.reimbs[n].pc.since <= w.clock
  {
  }

  // The restamped copy of a message whose read failed is fresh, and comes to the brink of a write.
  lemma ArmByRepublishing(start: World, before: seq<Event>, w: World, n: nat) returns (events: seq<Event>, w': World)
    requires Reaches(start, before, w) && Inv(w) && PcIs(w, n) && w.reimbs[n].pc.Republishing?
    requires Exists(w.rows, w.reimbs[n].uuid)
    ensures Reaches(start, events, w') && OnlyMoves(w, n, w') && |w'.reimbs| == |w.reimbs| + 1
    ensures Armed(w', |w.reimbs|) && w'.reimbs[|w.reimbs|].uuid == w.reimbs[n].uuid
  {
    var k := |w.reimbs|;
    PastHolds(w, n);
    Republished(start, before, w, n);
    events := before + [Republish(n, Delivered, w.clock)];
    Taken(start, events, WithCopy(w, n), k);
    var w1 := Moved(WithCopy(w, n), k, InHand, Start);
    assert OnlyMoves(w, n, w1) && Fresh(w1, k);
    events, w' := ArmAtStart(start, events + [AgentTake(k)], w1, k);
  }

  /** Any message in work on an existing row can be brought to the brink of a write, without touching a row or
      another message: by its read if it is fresh, by a restamped copy if its read has failed. */
  lemma Arm(start: World, before: seq<Event>, w: World, n: nat) returns (events: seq<Event>, w': World, k: nat)
    requires Reaches(start, before, w) && Inv(w) && Busy(w, n) && Exists(w.rows, w.reimbs[n].uuid)
    requires w.reimbs[n].pc.Start? ==> Fresh(w, n)
    ensures Reaches(start, events, w') && OnlyMoves(w, n, w')
    ensures Armed(w', k) && w'.reimbs[k].uuid == w.reimbs[n].uuid && (k == n || k == |w.reimbs|)
  {
    if w.reimbs[n].pc.Start? {
      events, w' := ArmAtStart(start, before, w, n);
      k := n;
    } else if w.reimbs[n].pc.Republishing? {
      events, w' := ArmByRepublishing(start, before, w, n);
      k := |w.reimbs|;
    } else {
      events, w', k := before, w, n;
    }
  }

  /** A read that fails on a decided row, at any retry: its restamped copy is about to overwrite the decision. */
  lemma FailedReadOfADecidedRowIsHarmful(w: World, n: nat, cause: Cause)
        returns (events: seq<Event>, w': World, shot: Event)
    requires Inv(w) && Enabled(w, ReadFails(n, cause)) && !PendingOrGone(w, w.reimbs[n].uuid)
    ensures Reaches(Next(w, ReadFails(n, cause)), events, w') && BadWrite(w', shot)
  {
    var w1 := Next(w, ReadFails(n, cause));
    InvStep(w, ReadFails(n, cause));
    var k: nat;
    events, w', k := Arm(w1, [], w1, n);
    shot := Shot(w', k);
    Fire(w', k);
  }

  /** Two messages in work on one pending row, wherever their handlers stand: both can come to a write, and the
      second overwrites the first. */
  lemma TwinsAreHarmful(w: World, n: nat, n': nat) returns (events: seq<Event>, w': World, shot: Event)
    requires Inv(w) && Twins(w, n, n') && n != n' && HasStatus(w.rows, w.reimbs[n].uuid, Pending)
    ensures Reaches(w, events, w') && BadWrite(w', shot)
  {
    var w1: World, w2: World, k: nat, k': nat;
    events, w1, k' := Arm(w, [], w, n');
    InvAlways(w, events);
    events, w2, k := Arm(w, events, w1, n);
    Fire(w2, k);
    Extend(w, events, w2, Shot(w2, k));
    events, w' := events + [Shot(w2, k)], Next(w2, Shot(w2, k));
    assert w'.reimbs[k'] == w1.reimbs[k'];
    shot := Shot(w', k');
    Fire(w', k');
  }

  /** The condition is exact. In any state where the guard's invariant holds, an event that does not heed it is
      itself an agent write on a decided row, or makes one reachable. */
  lemma NotHeedingIsHarmful(w: World, e: Event) returns (events: seq<Event>, w': World, shot: Event)
    requires Inv(w) && Guarded(w) && Enabled(w, e) && !Heeds(w, e)
    ensures BadWrite(w, e) || (Reaches(Next(w, e), events, w') && BadWrite(w', shot))
  {
    events, w', shot := [], w, e;
    if e.ReadFails? {
      events, w', shot := FailedReadOfADecidedRowIsHarmful(w, e.n, e.cause);
    } else if e.AgentTake? {
      var n: nat :| Busy(w, n) && w.reimbs[n].uuid == w.reimbs[e.n].uuid;
      var w1 := Next(w, e);
      InvStep(w, e);
      assert w1.rows == w.rows && w1.reimbs[n] == w.reimbs[n] && n != e.n;
      events, w', shot := TwinsAreHarmful(w1, n, e.n);
    }
  }

  /** In particular restamping makes any failed read below the ceiling read again as new, whatever has become of
      the row: five events later the graph is about to decide it once more. */
  lemma RestampedReadsAreFresh(w: World, n: nat, cause: Cause)
    requires Inv(w) && Enabled(w, ReadFails(n, cause)) && Exists(w.rows, w.reimbs[n].uuid)
      && w.reimbs[n].retry < MAX_RETRY
    ensures var k := |w.reimbs|;
      var run := [ReadFails(n, cause)] + [Republish(n, Delivered, w.clock + 1)] + [AgentCommit(n)] + [AgentTake(k)]
          + [ReadRow(k)];
      && IsRun(w, run) && |After(w, run).reimbs| == k + 1 && After(w, run).reimbs[k].pc == Deciding
      && After(w, run).reimbs[k].uuid == w.reimbs[n].uuid && After(w, run).rows == w.rows
  {
    var k := |w.reimbs|;
    Extend(w, [], w, ReadFails(n, cause));
    var w1 := Next(w, ReadFails(n, cause));
    var before := [] + [ReadFails(n, cause)];
    assert before == [ReadFails(n, cause)];
    var e := Republish(n, Delivered, w.clock + 1);
    Extend(w, before, w1, e);
    var w2 := Next(w1, e);
    Extend(w, before + [e], w2, AgentCommit(n));
    var w3 := Next(w2, AgentCommit(n));
    assert w3.reimbs[k].phase.Waiting? && w3.reimbs[k].publishedAt == w.clock + 1 && w3.rows == w.rows;
    Taken(w, before + [e] + [AgentCommit(n)], w3, k);
    ReadFresh(w, before + [e] + [AgentCommit(n)] + [AgentTake(k)], Moved(w3, k, InHand, Start), k);
  }
}
