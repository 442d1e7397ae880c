/** The error history that travels on envelopes, and ends in decision_reason, has a fixed shape for all
    API-originated traffic, in every run: publisher attempts, then resolve attempts, then one decide. */
module HistoryShape {
  import opened Models
  import opened Repository
  import opened Protocol
  import opened Invariants

  predicate PublisherStage(stage: Stage) {
    stage.DbInsert? || stage.Publish?
  }

  // Attempts numbered 1..n, the first `base` from the publisher and the rest failed resolves.
  predicate Staged(errors: seq<AttemptError>, base: nat) {
    && base <= |errors|
    && (forall k :: 0 <= k < |errors| ==> errors[k].attempt == k + 1)
    && (forall k :: 0 <= k < base ==> PublisherStage(errors[k].stage))
    && (forall k :: base <= k < |errors| ==> errors[k].stage.Resolve?)
  }

  predicate RequestHistory(r: RequestEntry) {
    && r.retry <= MAX_RETRY + 1 && |r.errors| == r.retry && Staged(r.errors, r.retry)
    && (forall i :: 0 <= i < |r.ops| ==>
          && (r.ops[i].Compensating? ==> PublisherStage(r.ops[i].stage))
          && (r.ops[i].Requeueing? ==> PublisherStage(r.ops[i].stage)))
  }

  predicate ReimbHistory(r: ReimbEntry) {
    && r.retry <= MAX_RETRY + 1
    && r.retry <= |r.errors| <= r.retry + MAX_RETRY
    && Staged(r.errors, |r.errors| - r.retry)
  }

  // The publisher's escalation: (db-insert|publish){4}
  predicate PublisherCeiling(errors: seq<AttemptError>) {
    |errors| == 4 && Staged(errors, 4)
  }

  // The agent's: (db-insert|publish){0,3} resolve{4}
  predicate AgentCeiling(errors: seq<AttemptError>) {
    4 <= |errors| <= 7 && Staged(errors, |errors| - 4)
  }

  // (db-insert|publish){0,3} resolve{0,3} decide
  function Earlier(errors: seq<AttemptError>): seq<AttemptError> {
    if |errors| == 0 then [] else errors[..|errors| - 1]
  }

  predicate DecideHistory(errors: seq<AttemptError>) {
    && 1 <= |errors| <= 7
    && errors[|errors| - 1].stage.Decide? && errors[|errors| - 1].attempt == |errors|
    && exists base: nat :: base <= 3 && base <= |errors| - 1 <= base + 3 && Staged(Earlier(errors), base)
  }

  // `published`: was a message ever published for the row? Only then can the agent have escalated it.
  predicate ReasonShape(reason: Reason, published: bool) {
    reason.History? ==>
      match reason.header
      case RetryCeilingReached => if published then AgentCeiling(reason.errors) else PublisherCeiling(reason.errors)
      case DecisionStageFailure => published && DecideHistory(reason.errors)
  }

  // A row that carries a history is in human review, and the history is of the shape its origin allows; and a row
  // in human review always says why, by a history or by the rule that sent it there.
  ghost predicate Explained(w: World, u: nat)
    requires Exists(w.rows, u)
  {
    && ReasonShape(w.rows[u].row.reason, !NoMessageFor(w, u))
    && (w.rows[u].row.reason.History? ==> w.rows[u].row.status.HumanReview?)
    && (w.rows[u].row.status.HumanReview? ==> w.rows[u].row.reason.History? || w.rows[u].row.reason.Rule?)
  }

  ghost predicate Histories(w: World) {
    && (forall m :: 0 <= m < |w.requests| ==> RequestHistory(w.requests[m]))
    && (forall n :: 0 <= n < |w.reimbs| ==> ReimbHistory(w.reimbs[n]))
    && (forall u: nat :: Exists(w.rows, u) ==> Explained(w, u))
  }

  lemma ItemEventRequests(w: World, e: Event, w': World)
    requires Shape(w) && Histories(w) && OpMoves(w, e, w')
    ensures forall m :: 0 <= m < |w'.requests| ==> RequestHistory(w'.requests[m])
  {
    forall m | 0 <= m < |w'.requests| ensures RequestHistory(w'.requests[m]) {
      if m < |w.requests| {
        assert w'.requests[m] == w'.requests[..|w.requests|][m];
        assert RequestHistory(w.requests[m]);
      } else {
        assert RequestHistory(w.requests[e.m]) && ShapeOf(w.requests[e.m]);
      }
    }
  }

  lemma RequestsStep(w: World, e: Event)
    requires Shape(w) && Histories(w) && Enabled(w, e) && !e.Foreign?
    ensures forall m :: 0 <= m < |Next(w, e).requests| ==> RequestHistory(Next(w, e).requests[m])
  {
    if IsItemEvent(e) {
      OpMovesOnly(w, e);
      ItemEventRequests(w, e, Next(w, e));
    }
  }

  lemma ReimbsKept(w: World, e: Event, w': World)
    requires Shape(w) && Histories(w) && ReimbsMove(w, e, w')
    ensures forall n :: 0 <= n < |w'.reimbs| ==> ReimbHistory(w'.reimbs[n])
  {
    forall n | 0 <= n < |w'.reimbs| ensures ReimbHistory(w'.reimbs[n]) {
      if n < |w.reimbs| {
        assert ReimbMoves(w, w.reimbs[n], w'.reimbs[n]);
        assert ReimbHistory(w.reimbs[n]);
      } else {
        NewcomerHistory(w, e, w'.reimbs[n]);
      }
    }
  }

  lemma NewcomerHistory(w: World, e: Event, entry: ReimbEntry)
    requires Shape(w) && Histories(w) && AppendedReimb(w, e, entry)
    ensures ReimbHistory(entry)
  {
    if e.PublishItem? {
      assert RequestHistory(w.requests[e.m]) && ShapeOf(w.requests[e.m]);
    } else {
      assert ReimbHistory(w.reimbs[e.n]);
    }
  }

  // The publisher's escalation inserts a fresh row, which no message names.
  lemma PublisherExplains(w: World, e: Event, u: nat)
    requires Inv(w) && Histories(w) && Enabled(w, e) && e.EscalateItem? && e.ok && u == |w.rows|
    ensures Exists(Next(w, e).rows, u) && Explained(Next(w, e), u)
  {
    assert RequestHistory(w.requests[e.m]);
    assert Next(w, e).reimbs == w.reimbs;
    assert NoMessageFor(w, u);
  }

  // The agent's escalations write the row that the message in hand names.
  lemma AgentExplains(w: World, e: Event)
    requires Inv(w) && Histories(w) && Enabled(w, e) && (e.OverCeiling? || e.EscalateFailure?) && e.ok
    requires Exists(w.rows, w.reimbs[e.n].uuid)
    ensures Exists(Next(w, e).rows, w.reimbs[e.n].uuid) && Explained(Next(w, e), w.reimbs[e.n].uuid)
  {
    assert ReimbHistory(w.reimbs[e.n]);
    assert Next(w, e).reimbs[e.n].uuid == w.reimbs[e.n].uuid;
    assert !NoMessageFor(Next(w, e), w.reimbs[e.n].uuid);
    if e.EscalateFailure? {
      DecideEndsTheHistory(w.reimbs[e.n], w.reimbs[e.n].pc.cause);
    }
  }

  // Any other event that leaves a row in human review leaves the whole row alone, or has decided it by a rule.
  lemma OtherRows(w: World, e: Event, u: nat)
    requires Shape(w) && Enabled(w, e) && Exists(Next(w, e).rows, u)
    requires Next(w, e).rows[u].row.reason.History? || Next(w, e).rows[u].row.status.HumanReview?
    requires !(e.EscalateItem? && e.ok && u == |w.rows|)
    requires (e.OverCeiling? || e.EscalateFailure?) && e.ok ==> w.reimbs[e.n].uuid != u
    ensures Exists(w.rows, u)
    ensures Next(w, e).rows[u] == w.rows[u] || (e.Decide? && Next(w, e).rows[u].row.reason.Rule?)
  {
  }

  // A row in human review never gets its first message: publishing needs a pending one.
  lemma NoFirstMessage(w: World, e: Event, w': World, u: nat)
    requires Inv(w) && ReimbsMove(w, e, w') && HasStatus(w.rows, u, HumanReview)
    requires e.PublishItem? && Holds(w, e.m, e.i) ==> w.requests[e.m].ops[e.i].Inserted?
    ensures NoMessageFor(w', u) <==> NoMessageFor(w, u)
  {
    if NoMessageFor(w, u) {
      assert e.PublishItem? && Holds(w, e.m, e.i) ==> HasStatus(w.rows, Held(w, e.m, e.i), Pending);
      NoNewMessageFor(w, e, w', u);
    } else {
      var n :| 0 <= n < |w.reimbs| && w.reimbs[n].uuid == u;
      assert ReimbMoves(w, w.reimbs[n], w'.reimbs[n]);
    }
  }

  lemma RowsStep(w: World, e: Event, u: nat)
    requires Inv(w) && Histories(w) && Enabled(w, e) && Exists(Next(w, e).rows, u)
    ensures Explained(Next(w, e), u)
  {
    if e.EscalateItem? && e.ok && u == |w.rows| {
      PublisherExplains(w, e, u);
    } else if (e.OverCeiling? || e.EscalateFailure?) && e.ok && w.reimbs[e.n].uuid == u && Exists(w.rows, u) {
      AgentExplains(w, e);
    } else if Next(w, e).rows[u].row.reason.History? || Next(w, e).rows[u].row.status.HumanReview? {
      RowsMoveOnly(w, e);
      assert u < |w.rows| ==> SlotMoves(w, e, w.rows[u], Next(w, e).rows[u], u);
      OtherRows(w, e, u);
      if !Next(w, e).rows[u].row.reason.Rule? {
        ReimbsMoveOnly(w, e);
        assert Explained(w, u);
        NoFirstMessage(w, e, Next(w, e), u);
      }
    }
  }

  lemma DecideEndsTheHistory(r: ReimbEntry, cause: Cause)
    requires ReimbHistory(r) && r.retry <= MAX_RETRY
    ensures DecideHistory(Appended(r.errors, Stage.Decide, cause))
  {
    var errors := Appended(r.errors, Stage.Decide, cause);
    var base: nat := |r.errors| - r.retry;
    assert Earlier(errors) == r.errors;
    assert base <= |errors| - 1 <= base + 3 && Staged(Earlier(errors), base);
  }

  lemma HistoriesStep(w: World, e: Event)
    requires Inv(w) && Histories(w) && Enabled(w, e) && !e.Foreign?
    ensures Histories(Next(w, e))
  {
    RequestsStep(w, e);
    ReimbsMoveOnly(w, e);
    ReimbsKept(w, e, Next(w, e));
    forall u: nat | Exists(Next(w, e).rows, u) ensures Explained(Next(w, e), u) {
      RowsStep(w, e, u);
    }
  }

  lemma {:induction false} HistoriesFrom(w: World, events: seq<Event>)
    requires Inv(w) && Histories(w) && IsRun(w, events)
    requires forall k :: 0 <= k < |events| ==> !events[k].Foreign?
    ensures Histories(After(w, events))
    decreases |events|
  {
    if |events| > 0 {
      InvStep(w, events[0]);
      HistoriesStep(w, events[0]);
      HistoriesFrom(Next(w, events[0]), events[1..]);
    }
  }

  /** Every run of API traffic, crashes included: |errors| = retry on Request, retry + base with
      base <= 3 on Reimbursement, attempts numbered 1..n. A row escalated past the ceiling shows four
      publisher attempts if it was never published, and otherwise the agent's: up to three publisher
      attempts and four resolves, or up to three of each and one decide; at most seven entries. */
  lemma HistoriesKeepTheirShape(start: World, events: seq<Event>)
    requires Init(start) && IsRun(start, events)
    requires forall k :: 0 <= k < |events| ==> !events[k].Foreign?
    ensures Histories(After(start, events))
  {
    InitInv(start);
    HistoriesFrom(start, events);
  }

  // ---------------------------------------------------------------- what the reason of an escalated row tells

  // Every entry from `from` to `to` is at one of the publisher's two stages.
  predicate FromThePublisher(errors: seq<AttemptError>, to: nat) {
    to <= |errors| && forall k :: 0 <= k < to ==> errors[k].stage.DbInsert? || errors[k].stage.Publish?
  }

  predicate Resolves(errors: seq<AttemptError>, from: nat, to: nat) {
    from <= to <= |errors| && forall k :: from <= k < to ==> errors[k].stage.Resolve?
  }

  // A history in full: numbered from 1, and staged as its title and its origin say.
  ghost predicate Tells(reason: Reason, published: bool) {
    reason.History? &&
    var errors := reason.errors;
    && (forall k :: 0 <= k < |errors| ==> errors[k].attempt == k + 1)
    && match reason.header
       case RetryCeilingReached =>
         if !published then |errors| == 4 && FromThePublisher(errors, 4)
         else exists base: nat :: base <= 3 && |errors| == base + 4
                && FromThePublisher(errors, base) && Resolves(errors, base, |errors|)
       case DecisionStageFailure =>
         && published && |errors| > 0 && errors[|errors| - 1].stage.Decide?
         && exists base: nat :: base <= 3 && base <= |errors| - 1 <= base + 3
              && FromThePublisher(errors, base) && Resolves(errors, base, |errors| - 1)
  }

  /** Every row in human review, in every run of API traffic, says why it is there: a rule, or attempts numbered from
      1 that are four failures of the publisher; or at most three of them and then four failed reads; or at most three
      of each and then the one decision that failed. */
  lemma RowsInReviewAreExplained(start: World, events: seq<Event>, u: nat)
    requires Init(start) && IsRun(start, events) && forall k :: 0 <= k < |events| ==> !events[k].Foreign?
    requires Exists(After(start, events).rows, u) && After(start, events).rows[u].row.status == HumanReview
    ensures var w := After(start, events);
      var reason := w.rows[u].row.reason;
      reason.Rule? || Tells(reason, exists n :: 0 <= n < |w.reimbs| && w.reimbs[n].uuid == u)
  {
    HistoriesKeepTheirShape(start, events);
    var w := After(start, events);
    assert Explained(w, u);
    if w.rows[u].row.reason.History? {
      ExplainedSays(w.rows[u].row.reason, !NoMessageFor(w, u));
    }
  }

  lemma ExplainedSays(reason: Reason, published: bool)
    requires ReasonShape(reason, published) && reason.History?
    ensures Tells(reason, published)
  {
    var errors := reason.errors;
    if reason.header.RetryCeilingReached? {
      if published {
        var base: nat := |errors| - 4;
        assert FromThePublisher(errors, base) && Resolves(errors, base, |errors|);
      }
    } else {
      var earlier := Earlier(errors);
      var base: nat :| base <= 3 && base <= |errors| - 1 <= base + 3 && Staged(earlier, base);
      assert forall k :: 0 <= k < |earlier| ==> errors[k] == earlier[k];
      assert FromThePublisher(errors, base) && Resolves(errors, base, |errors| - 1);
    }
  }
}
