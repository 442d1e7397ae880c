/** Crash-free runs keep both ledgers honest: the append-only audit trail agrees with every row, and
    the status-transition counter accounts for every row, hardcoded "pending" label included. */
module Ledgers {
  import opened Models
  import opened Repository
  import opened Protocol
  import opened Invariants
  import opened LinearToken
  import opened Sums

  // ---------------------------------------------------------------- audit trail

  // One row's committed reviews, oldest first; true is an approval.
  function ReviewsOf(audit: seq<Review>, u: nat): seq<bool> {
    if |audit| == 0 then []
    else
      var last := audit[|audit| - 1];
      ReviewsOf(audit[..|audit| - 1], u) + if last.uuid == u then [last.approved] else []
  }

  // rejected* approved?
  predicate RejectionsThenApproval(history: seq<bool>) {
    forall k :: 0 <= k < |history| - 1 ==> !history[k]
  }

  predicate FullReceipts(r: Receipts) {
    r.value.Some? && r.value.value >= 0.0 && r.date.Some? && r.currency.Some?
  }

  ghost predicate RowAgrees(slot: Slot, history: seq<bool>) {
    && RejectionsThenApproval(history)
    && ((slot.Present? && slot.row.status.HumanApproved?) <==> (|history| > 0 && history[|history| - 1]))
    && ((slot.Present? && slot.row.status.HumanRejected?) <==> (|history| > 0 && !history[|history| - 1]))
    && (slot.Present? && slot.row.status.HumanApproved? ==> FullReceipts(slot.row.receipts))
  }

  ghost predicate AuditAgrees(w: World) {
    && (forall u: nat :: u < |w.rows| ==> RowAgrees(w.rows[u], ReviewsOf(w.audit, u)))
    && (forall u: nat :: u >= |w.rows| ==> ReviewsOf(w.audit, u) == [])
  }

  lemma {:induction false} ReviewsAppend(audit: seq<Review>, r: Review, u: nat)
    ensures ReviewsOf(audit + [r], u) == ReviewsOf(audit, u) + if r.uuid == u then [r.approved] else []
  {
    assert (audit + [r])[..|audit|] == audit;
  }

  lemma AuditMoves(w: World, e: Event)
    requires Enabled(w, e)
    ensures Next(w, e).audit == if e.ReviewRow? then w.audit + [Review(e.u, e.approved)] else w.audit
  {
  }

  // One more review of an eligible row keeps the history in shape and the row in agreement.
  lemma ReviewedSlotAgrees(before: Slot, after: Slot, history: seq<bool>, approved: bool)
    requires RowAgrees(before, history) && before.Present? && before.row.status in ELIGIBLE_STATUSES && after.Present?
    requires after.row.status == (if approved then HumanApproved else HumanRejected)
    requires approved ==> FullReceipts(after.row.receipts)
    ensures RowAgrees(after, history + [approved])
  {
  }

  // A row leaving `pending` by the agent's hand, or the table, has no history and needs none.
  lemma PendingSlotAgrees(before: Slot, after: Slot, history: seq<bool>)
    requires RowAgrees(before, history) && before.Present? && before.row.status.Pending?
    requires after.Present? ==> !after.row.status.HumanApproved? && !after.row.status.HumanRejected?
    ensures RowAgrees(after, history)
  {
  }

  lemma SlotAgrees(w: World, e: Event, w': World, u: nat)
    requires Linear(w) && AuditAgrees(w) && RowsMove(w, e, w') && LivesMove(w, e, w') && u < |w.rows|
    requires w'.audit == if e.ReviewRow? then w.audit + [Review(e.u, e.approved)] else w.audit
    requires e.ReviewRow? ==> Eligible(w.rows, e.u) && (e.u == u ==> w'.rows[u] != w.rows[u])
    ensures RowAgrees(w'.rows[u], ReviewsOf(w'.audit, u))
  {
    assert SlotMoves(w, e, w.rows[u], w'.rows[u], u);
    assert RowAgrees(w.rows[u], ReviewsOf(w.audit, u));
    if e.ReviewRow? {
      ReviewsAppend(w.audit, Review(e.u, e.approved), u);
      if e.u == u {
        ReviewedSlotAgrees(w.rows[u], w'.rows[u], ReviewsOf(w.audit, u), e.approved);
      } else {
        assert ReviewsOf(w.audit, u) + [] == ReviewsOf(w.audit, u);
      }
    } else if w'.rows[u] != w.rows[u] {
      assert WritesRow(w, e, u) ==> Live(w, e.n);
      PendingSlotAgrees(w.rows[u], w'.rows[u], ReviewsOf(w.audit, u));
    }
  }

  lemma AuditStep(w: World, e: Event)
    requires Inv(w) && Linear(w) && AuditAgrees(w) && Enabled(w, e) && CrashFree(e)
    ensures AuditAgrees(Next(w, e))
  {
    var w' := Next(w, e);
    RowsMoveOnly(w, e);
    LivesMoveOnly(w, e);
    AuditMoves(w, e);
    ReviewChangesItsRow(w, e);
    forall u: nat ensures u < |w'.rows| ==> RowAgrees(w'.rows[u], ReviewsOf(w'.audit, u))
                  ensures u >= |w'.rows| ==> ReviewsOf(w'.audit, u) == []
    {
      if u < |w.rows| {
        SlotAgrees(w, e, w', u);
      } else if e.ReviewRow? {
        ReviewsAppend(w.audit, Review(e.u, e.approved), u);
      }
    }
  }

  lemma ReviewChangesItsRow(w: World, e: Event)
    requires Inv(w) && Enabled(w, e)
    ensures e.ReviewRow? ==> Next(w, e).rows[e.u] != w.rows[e.u]
  {
    assert e.ReviewRow? ==> Next(w, e).rows[e.u].row.updatedAt == w.clock;
  }

  // ---------------------------------------------------------------- transition counter

  function StatusIs(s: Status): Slot -> nat {
    (slot: Slot) => if slot.Present? && slot.row.status == s then 1 else 0
  }

  function EntersAt(s: Status): Transition -> nat {
    (t: Transition) => if t.to == s then 1 else 0
  }

  function LeavesFrom(s: Status): Transition -> nat {
    (t: Transition) => if t.from == s then 1 else 0
  }

  function InsertedAt(w: World, s: Status): nat {
    if s.HumanReview? then w.escalatedInserts else 0
  }

  // For every non-pending status: rows = inserted there + transitions in - transitions out.
  predicate Balanced(w: World, s: Status) {
    Sum(StatusIs(s), w.rows) + Sum(LeavesFrom(s), w.transitions) == InsertedAt(w, s) + Sum(EntersAt(s), w.transitions)
  }

  predicate FlowConserved(w: World) {
    forall s: Status :: s != Pending ==> Balanced(w, s)
  }

  // The counter's label is true at this step: the row really was at `from`.
  predicate TrueLabel(w: World, e: Event, w': World, u: nat) {
    && Exists(w.rows, u) && u < |w'.rows| && w'.rows[u].Present?
    && w'.rows == w.rows[u := w'.rows[u]]
    && w'.transitions == w.transitions + [Transition(w.rows[u].row.status, w'.rows[u].row.status)]
    && w'.escalatedInserts == w.escalatedInserts
  }

  lemma LabelledMoveBalances(w: World, e: Event, w': World, u: nat, s: Status)
    requires TrueLabel(w, e, w', u) && Balanced(w, s)
    ensures Balanced(w', s)
  {
    var t := Transition(w.rows[u].row.status, w'.rows[u].row.status);
    SumUpdate(StatusIs(s), w.rows, u, w'.rows[u]);
    SumAppend(LeavesFrom(s), w.transitions, t);
    SumAppend(EntersAt(s), w.transitions, t);
  }

  // Every review but one whose row could not be re-read afterwards is counted.
  predicate Counted(e: Event) {
    e.ReviewRow? ==> e.counted
  }

  predicate MayWrite(e: Event) {
    e.OverCeiling? || e.Decide? || e.EscalateFailure?
  }

  /** In a crash-free run every increment of the counter carries the row's true previous status,
      the hardcoded "pending" included. */
  lemma LabelsAreTrue(w: World, e: Event)
    requires Inv(w) && Linear(w) && Enabled(w, e) && Next(w, e).transitions != w.transitions
    ensures (MayWrite(e) && TrueLabel(w, e, Next(w, e), w.reimbs[e.n].uuid))
      || (e.ReviewRow? && TrueLabel(w, e, Next(w, e), e.u))
  {
    if MayWrite(e) {
      WriterIsLive(w, e, w.reimbs[e.n].uuid);
    }
  }

  // Without an increment, a row is inserted, a pending row is deleted, or no row changes.
  ghost predicate UncountedMove(w: World, w': World) {
    && w'.transitions == w.transitions
    && (|| (w'.rows == w.rows && w'.escalatedInserts == w.escalatedInserts)
        || (|w'.rows| == |w.rows| + 1 && w'.rows == w.rows + [w'.rows[|w.rows|]] && w'.rows[|w.rows|].Present?
            && w'.rows[|w.rows|].row.status in {Pending, HumanReview}
            && w'.escalatedInserts == w.escalatedInserts + if w'.rows[|w.rows|].row.status.HumanReview? then 1 else 0)
        || (w'.escalatedInserts == w.escalatedInserts
            && exists u: nat :: HasStatus(w.rows, u, Pending) && w'.rows == w.rows[u := Absent]))
  }

  lemma UncountedMovesOnly(w: World, e: Event)
    requires Enabled(w, e) && Counted(e) && Next(w, e).transitions == w.transitions
    ensures UncountedMove(w, Next(w, e))
  {
    if e.Delete? {
      var u := w.requests[e.m].ops[e.i].uuid;
      assert Next(w, e).rows != w.rows ==> HasStatus(w.rows, u, Pending) && Next(w, e).rows == w.rows[u := Absent];
    }
  }

  lemma UncountedMoveBalances(w: World, w': World, s: Status)
    requires UncountedMove(w, w') && s != Pending && Balanced(w, s)
    ensures Balanced(w', s)
  {
    if |w'.rows| == |w.rows| + 1 {
      SumAppend(StatusIs(s), w.rows, w'.rows[|w.rows|]);
    } else if w'.rows != w.rows {
      var u: nat :| HasStatus(w.rows, u, Pending) && w'.rows == w.rows[u := Absent];
      SumUpdate(StatusIs(s), w.rows, u, Absent);
    }
  }

  lemma FlowStep(w: World, e: Event)
    requires Inv(w) && Linear(w) && FlowConserved(w) && Enabled(w, e) && CrashFree(e) && Counted(e)
    ensures FlowConserved(Next(w, e))
  {
    forall s: Status | s != Pending ensures Balanced(Next(w, e), s) {
      if Next(w, e).transitions == w.transitions {
        UncountedMovesOnly(w, e);
        UncountedMoveBalances(w, Next(w, e), s);
      } else {
        LabelsAreTrue(w, e);
        LabelledMoveBalances(w, e, Next(w, e), if e.ReviewRow? then e.u else w.reimbs[e.n].uuid, s);
      }
    }
  }

  // A review that no increment tells of.
  lemma UncountedReview(w: World, e: Event, s: Status)
    requires Inv(w) && Enabled(w, e) && e.ReviewRow? && !e.counted && s != Pending && Balanced(w, s)
    ensures var from, to := w.rows[e.u].row.status, Next(w, e).rows[e.u].row.status;
      Balanced(Next(w, e), s) <==> from == to || (s != from && s != to)
  {
    var w' := Next(w, e);
    assert w'.rows == w.rows[e.u := w'.rows[e.u]] && w'.transitions == w.transitions;
    SumUpdate(StatusIs(s), w.rows, e.u, w'.rows[e.u]);
  }

  /** The counter's law is broken by exactly one thing: a review that moves its row and whose re-read then fails,
      so that the committed decision is never counted. */
  lemma FlowBreaksExactlyAtUncountedReviews(w: World, e: Event)
    requires Inv(w) && Linear(w) && FlowConserved(w) && Enabled(w, e) && CrashFree(e)
    ensures FlowConserved(Next(w, e)) <==> Counted(e) || w.rows[e.u].row.status == Next(w, e).rows[e.u].row.status
  {
    if Counted(e) {
      FlowStep(w, e);
    } else {
      forall s: Status | s != Pending
        ensures var from, to := w.rows[e.u].row.status, Next(w, e).rows[e.u].row.status;
          Balanced(Next(w, e), s) <==> from == to || (s != from && s != to)
      {
        UncountedReview(w, e, s);
      }
      var from, to := w.rows[e.u].row.status, Next(w, e).rows[e.u].row.status;
      assert to != Pending;
      assert Balanced(Next(w, e), to) <==> from == to;
    }
  }

  lemma {:induction false} LedgersFrom(w: World, events: seq<Event>)
    requires Inv(w) && Linear(w) && AuditAgrees(w) && CrashFreeRun(w, events)
    ensures AuditAgrees(After(w, events))
    ensures FlowConserved(w) && (forall k :: 0 <= k < |events| ==> Counted(events[k]))
      ==> FlowConserved(After(w, events))
    decreases |events|
  {
    if |events| > 0 {
      LinearStep(w, events[0]);
      AuditStep(w, events[0]);
      if FlowConserved(w) && Counted(events[0]) { FlowStep(w, events[0]); }
      LedgersFrom(Next(w, events[0]), events[1..]);
    }
  }

  /** Both ledgers, at every state of every crash-free run: the audit trail always, and the counter as long as
      every review was counted. */
  lemma LedgersAreHonest(start: World, events: seq<Event>)
    requires Init(start) && CrashFreeRun(start, events)
    ensures AuditAgrees(After(start, events))
    ensures (forall k :: 0 <= k < |events| ==> Counted(events[k])) ==> FlowConserved(After(start, events))
  {
    InitLinear(start);
    InitLedgers(start);
    LedgersFrom(start, events);
  }

  lemma InitLedgers(start: World)
    requires Init(start)
    ensures AuditAgrees(start) && FlowConserved(start)
  {
    assert forall u: nat :: ReviewsOf(start.audit, u) == [];
    assert forall s: Status :: Sum(StatusIs(s), start.rows) == 0;
    assert forall s: Status :: Sum(LeavesFrom(s), start.transitions) == 0 == Sum(EntersAt(s), start.transitions);
  }

  // ---------------------------------------------------------------- receipts columns

  lemma DeletedStaysDeleted(w: World, e: Event, u: nat)
    requires Shape(w) && Enabled(w, e) && u < |w.rows| && w.rows[u].Absent?
    ensures u < |Next(w, e).rows| && Next(w, e).rows[u].Absent?
  {
    RowsMoveOnly(w, e);
    assert SlotMoves(w, e, w.rows[u], Next(w, e).rows[u], u);
  }

  lemma {:induction false} DeletedForEver(w: World, events: seq<Event>, u: nat)
    requires Shape(w) && IsRun(w, events) && u < |w.rows| && w.rows[u].Absent?
    ensures !Exists(After(w, events).rows, u)
    decreases |events|
  {
    if |events| > 0 {
      ShapeStep(w, events[0]);
      DeletedStaysDeleted(w, events[0], u);
      DeletedForEver(Next(w, events[0]), events[1..], u);
    }
  }

  lemma WrittenReceipts(w: World, e: Event, u: nat)
    requires Enabled(w, e) && (MayWrite(e) || e.ReviewRow?) && Exists(w.rows, u)
    ensures Exists(Next(w, e).rows, u) && NotErased(w.rows[u].row.receipts, Next(w, e).rows[u].row.receipts)
  {
  }

  lemma ReceiptsStep(w: World, e: Event, u: nat)
    requires Shape(w) && Enabled(w, e) && Exists(w.rows, u) && Exists(Next(w, e).rows, u)
    ensures NotErased(w.rows[u].row.receipts, Next(w, e).rows[u].row.receipts)
  {
    if MayWrite(e) || e.ReviewRow? {
      WrittenReceipts(w, e, u);
    } else {
      RowsMoveOnly(w, e);
      assert SlotMoves(w, e, w.rows[u], Next(w, e).rows[u], u);
    }
  }

  /** In every run, crashes and overwritten decisions included, a receipts column once filled stays filled. */
  lemma {:induction false} ReceiptsAreNeverErased(w: World, events: seq<Event>, u: nat)
    requires Shape(w) && IsRun(w, events) && Exists(w.rows, u) && Exists(After(w, events).rows, u)
    ensures NotErased(w.rows[u].row.receipts, After(w, events).rows[u].row.receipts)
    decreases |events|
  {
    if |events| > 0 {
      var w1 := Next(w, events[0]);
      ShapeStep(w, events[0]);
      RowsMoveOnly(w, events[0]);
      if Exists(w1.rows, u) {
        ReceiptsStep(w, events[0], u);
        ReceiptsAreNeverErased(w1, events[1..], u);
      } else {
        DeletedForEver(w1, events[1..], u);
      }
    }
  }

  // ---------------------------------------------------------------- the counter's law, counted

  function RowsAt(w: World, s: Status): set<int> {
    set u | 0 <= u < |w.rows| && w.rows[u].Present? && w.rows[u].row.status == s
  }

  /** For every status but pending: the rows that have it, with the transitions that left it, are as many as the
      transitions that came to it, with the rows inserted straight at human-review. */
  lemma FlowIsACount(w: World, s: Status)
    requires FlowConserved(w) && s != Pending
    ensures |RowsAt(w, s)| + |set k | 0 <= k < |w.transitions| && w.transitions[k].from == s|
         == (if s == HumanReview then w.escalatedInserts else 0) + |set k | 0 <= k < |w.transitions|
           && w.transitions[k].to == s|
  {
    assert Balanced(w, s);
    SumCounts(StatusIs(s), w.rows);
    SumCounts(LeavesFrom(s), w.transitions);
    SumCounts(EntersAt(s), w.transitions);
    assert Ones(StatusIs(s), w.rows) == RowsAt(w, s);
    assert Ones(LeavesFrom(s), w.transitions)
        == (set k | 0 <= k < |w.transitions| && w.transitions[k].from == s);
    assert Ones(EntersAt(s), w.transitions)
        == (set k | 0 <= k < |w.transitions| && w.transitions[k].to == s);
  }
}
