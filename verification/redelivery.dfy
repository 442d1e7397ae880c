/** Redelivery is harmless: as long as no message is taken up while another for the same pending row is in
    work, and no read fails on a row that has already been decided, any number of crashes of either service
    leaves the first decision standing. One sequential agent meets the first condition by construction. */
module Redelivery {
  import opened Models
  import opened Repository
  import opened Protocol
  import opened Invariants

  ghost predicate PendingOrGone(w: World, u: nat) {
    Exists(w.rows, u) ==> HasStatus(w.rows, u, Pending)
  }

  // Taken up and not yet settled.
  predicate Busy(w: World, n: nat) {
    PcIs(w, n) && !w.reimbs[n].pc.Handled?
  }

  predicate Twins(w: World, n: nat, n': nat) {
    Busy(w, n) && Busy(w, n') && w.reimbs[n].uuid == w.reimbs[n'].uuid
  }

  // Nobody is at work on another message for the same pending row.
  ghost predicate NoTwinAtWork(w: World, uuid: nat) {
    HasStatus(w.rows, uuid, Pending) ==> forall n: nat :: Busy(w, n) ==> w.reimbs[n].uuid != uuid
  }

  // The hypotheses, each a condition on the state an event meets.
  ghost predicate Allowed(w: World, e: Event) {
    && (e.AgentTake? ==> e.n < |w.reimbs| && NoTwinAtWork(w, w.reimbs[e.n].uuid))
    && (e.ReadFails? ==> e.n < |w.reimbs| && PendingOrGone(w, w.reimbs[e.n].uuid))
  }

  /** An agent that has only one message in hand at a time always meets the first hypothesis. */
  lemma OneAgentHasNoTwin(w: World, e: Event)
    requires e.AgentTake? && e.n < |w.reimbs| && forall n: nat :: !PcIs(w, n)
    ensures Allowed(w, e)
  {
  }

  predicate PastRead(w: World, n: nat) {
    PcIs(w, n) && (w.reimbs[n].pc.Deciding? || w.reimbs[n].pc.EscalatingFailure? || w.reimbs[n].pc.Republishing?)
  }

  // The staleness guard's inductive content.
  ghost predicate Guarded(w: World) {
    && (forall n: nat, n': nat :: Twins(w, n, n') && HasStatus(w.rows, w.reimbs[n].uuid, Pending) ==> n == n')
    && (forall n: nat ::
          n < |w.reimbs| && Exists(w.rows, w.reimbs[n].uuid) && !HasStatus(w.rows, w.reimbs[n].uuid, Pending) ==>
          w.reimbs[n].publishedAt < w.rows[w.reimbs[n].uuid].row.updatedAt)
    && (forall n: nat :: PastRead(w, n) ==> PendingOrGone(w, w.reimbs[n].uuid))
  }

  ghost predicate HandsMove(w: World, e: Event, w': World) {
    && |w.reimbs| <= |w'.reimbs|
    && (forall n: nat :: Busy(w', n) ==>
          && n < |w.reimbs| && w'.reimbs[n].uuid == w.reimbs[n].uuid
          && (Busy(w, n) || (e.AgentTake? && e.n == n && !PastRead(w', n))))
    && (forall n: nat :: PastRead(w', n) && !PastRead(w, n) ==>
          Busy(w, n) && ((e.ReadFails? && e.n == n)
            || (e.ReadRow? && e.n == n && Exists(w.rows, w.reimbs[n].uuid)
                && w.reimbs[n].publishedAt >= w.rows[w.reimbs[n].uuid].row.updatedAt && w'.rows == w.rows)))
    && (e.Republish? ==> PastRead(w, e.n))
    && (e.OverCeiling? || e.Decide? || e.EscalateFailure? ==> Busy(w, e.n) && !PastRead(w', e.n))
  }

  lemma MessageEventsMoveHands(w: World, e: Event)
    requires Shape(w) && Enabled(w, e) && IsMessageEvent(e)
    ensures HandsMove(w, e, Next(w, e))
  {
    MessageEventsMoveOneEntry(w, e);
    OneEntryMovesHands(w, e, Next(w, e));
  }

  lemma OneEntryMovesHands(w: World, e: Event, w': World)
    requires Shape(w) && OneEntryMoves(w, e, w') && Enabled(w, e)
    requires !PastRead(w', e.n) || PastRead(w, e.n) || e.ReadFails? || (e.ReadRow? && Exists(w.rows, w.reimbs[e.n].uuid)
                && w.reimbs[e.n].publishedAt >= w.rows[w.reimbs[e.n].uuid].row.updatedAt && w'.rows == w.rows)
    requires e.OverCeiling? || e.Decide? || e.EscalateFailure? ==> !PastRead(w', e.n)
    ensures HandsMove(w, e, w')
  {
    forall n: nat | Busy(w', n)
      ensures n < |w.reimbs| && w'.reimbs[n].uuid == w.reimbs[n].uuid
      ensures Busy(w, n) || (e.AgentTake? && e.n == n && !PastRead(w', n))
    {
      assert n < |w.reimbs| ==> w'.reimbs[n] == w'.reimbs[..|w.reimbs|][n];
    }
    forall n: nat | PastRead(w', n) && !PastRead(w, n) ensures n == e.n {
      assert n < |w.reimbs| ==> w'.reimbs[n] == w'.reimbs[..|w.reimbs|][n];
    }
  }

  lemma HandsMoveOnly(w: World, e: Event)
    requires Shape(w) && Enabled(w, e)
    ensures HandsMove(w, e, Next(w, e))
  {
    var w' := Next(w, e);
    if IsMessageEvent(e) {
      MessageEventsMoveHands(w, e);
    } else if e.PublishItem? {
      PublishAppendsReimb(w, e);
      assert forall n: nat :: n < |w.reimbs| ==> w'.reimbs[n] == w'.reimbs[..|w.reimbs|][n];
    } else {
      OtherEventsLeaveReimbs(w, e);
    }
  }

  lemma StampsStayBehind(w: World, e: Event, w': World, n: nat)
    requires Inv(w) && Guarded(w) && Moves(w, e, w') && HandsMove(w, e, w')
    requires n < |w'.reimbs| && Exists(w'.rows, w'.reimbs[n].uuid) && !HasStatus(w'.rows, w'.reimbs[n].uuid, Pending)
    ensures w'.reimbs[n].publishedAt < w'.rows[w'.reimbs[n].uuid].row.updatedAt
  {
    var u := w'.reimbs[n].uuid;
    assert n < |w.reimbs| ==> ReimbMoves(w, w.reimbs[n], w'.reimbs[n]);
    assert n == |w.reimbs| ==> AppendedReimb(w, e, w'.reimbs[n]);
    assert SlotMoves(w, e, w.rows[u], w'.rows[u], u);
  }

  lemma PastReadStaysPending(w: World, e: Event, w': World, n: nat)
    requires Inv(w) && Guarded(w) && Allowed(w, e) && Moves(w, e, w') && HandsMove(w, e, w') && PastRead(w', n)
    ensures PendingOrGone(w', w'.reimbs[n].uuid)
  {
    var u := w.reimbs[n].uuid;
    assert ReimbMoves(w, w.reimbs[n], w'.reimbs[n]);
    assert SlotMoves(w, e, w.rows[u], w'.rows[u], u);
    assert WritesRow(w, e, u) && n != e.n ==> Twins(w, n, e.n);
  }

  lemma TwinsKept(w: World, e: Event, w': World, n: nat, n': nat)
    requires Inv(w) && Guarded(w) && Allowed(w, e) && Moves(w, e, w') && HandsMove(w, e, w')
    requires Twins(w', n, n')
    requires HasStatus(w'.rows, w'.reimbs[n].uuid, Pending)
    ensures n == n'
  {
    var u := w.reimbs[n].uuid;
    assert SlotMoves(w, e, w.rows[u], w'.rows[u], u);
    assert HasStatus(w.rows, u, Pending);
    assert n != n' ==> Busy(w, n) || Busy(w, n');
    assert Busy(w, n) && Busy(w, n') ==> Twins(w, n, n');
  }

  lemma GuardedKept(w: World, e: Event, w': World)
    requires Inv(w) && Guarded(w) && Allowed(w, e) && Moves(w, e, w') && HandsMove(w, e, w')
    ensures Guarded(w')
  {
    forall n: nat | n < |w'.reimbs| && Exists(w'.rows, w'.reimbs[n].uuid)
        && !HasStatus(w'.rows, w'.reimbs[n].uuid, Pending)
      ensures w'.reimbs[n].publishedAt < w'.rows[w'.reimbs[n].uuid].row.updatedAt
    {
      StampsStayBehind(w, e, w', n);
    }
    forall n: nat | PastRead(w', n) ensures PendingOrGone(w', w'.reimbs[n].uuid) {
      PastReadStaysPending(w, e, w', n);
    }
    forall n: nat, n': nat | Twins(w', n, n') && HasStatus(w'.rows, w'.reimbs[n].uuid, Pending) ensures n == n'
    {
      TwinsKept(w, e, w', n, n');
    }
  }

  ghost predicate AllowedRun(w: World, events: seq<Event>)
    decreases |events|
  {
    |events| == 0 || (Enabled(w, events[0]) && Allowed(w, events[0]) && AllowedRun(Next(w, events[0]), events[1..]))
  }

  lemma GuardedStep(w: World, e: Event)
    requires Inv(w) && Guarded(w) && Enabled(w, e) && Allowed(w, e)
    ensures Inv(Next(w, e)) && Guarded(Next(w, e))
  {
    InvStep(w, e);
    MovesOnly(w, e);
    HandsMoveOnly(w, e);
    GuardedKept(w, e, Next(w, e));
  }

  // One agent process, one message at a time: nothing is taken up while anything is in hand; and no read fails on
  // a decided row.
  ghost predicate OneAgentRun(w: World, events: seq<Event>)
    decreases |events|
  {
    |events| == 0 ||
    (var e := events[0];
     && Enabled(w, e)
     && (e.AgentTake? ==> forall n: nat :: !PcIs(w, n))
     && (e.ReadFails? ==> PendingOrGone(w, w.reimbs[e.n].uuid))
     && OneAgentRun(Next(w, e), events[1..]))
  }

  /** Every run of one sequential agent in which no read fails on a decided row meets both hypotheses at every event,
      crashes of either service included. */
  lemma {:induction false} OneAgentRunsAreAllowed(w: World, events: seq<Event>)
    requires OneAgentRun(w, events)
    ensures AllowedRun(w, events)
    decreases |events|
  {
    if |events| > 0 {
      if events[0].AgentTake? { OneAgentHasNoTwin(w, events[0]); }
      OneAgentRunsAreAllowed(Next(w, events[0]), events[1..]);
    }
  }

  /** The hypotheses are exact: the events that keep the guard's invariant are precisely the allowed ones. */
  lemma GuardedIffAllowed(w: World, e: Event)
    requires Inv(w) && Guarded(w) && Enabled(w, e)
    ensures Guarded(Next(w, e)) <==> Allowed(w, e)
  {
    var w' := Next(w, e);
    if Allowed(w, e) {
      GuardedStep(w, e);
    } else if e.AgentTake? {
      var n: nat :| Busy(w, n) && w.reimbs[n].uuid == w.reimbs[e.n].uuid;
      assert w'.reimbs[n] == w.reimbs[n] && w'.rows == w.rows && n != e.n;
      assert Twins(w', n, e.n);
    } else {
      assert w'.rows == w.rows && PastRead(w', e.n);
    }
  }

  lemma {:induction false} GuardedFrom(w: World, events: seq<Event>)
    requires Inv(w) && Guarded(w) && AllowedRun(w, events)
    ensures IsRun(w, events) && Inv(After(w, events)) && Guarded(After(w, events))
    decreases |events|
  {
    if |events| > 0 {
      GuardedStep(w, events[0]);
      GuardedFrom(Next(w, events[0]), events[1..]);
    }
  }

  /** Every message on the topic for a decided row, redelivered or not, is older than the decision. */
  lemma MessagesForDecidedRowsAreStale(start: World, events: seq<Event>)
    requires Init(start) && AllowedRun(start, events)
    ensures IsRun(start, events) && Inv(After(start, events)) && Guarded(After(start, events))
    ensures var w := After(start, events);
      forall n: nat ::
        n < |w.reimbs| && Exists(w.rows, w.reimbs[n].uuid) && w.rows[w.reimbs[n].uuid].row.status != Pending ==>
        w.reimbs[n].publishedAt < w.rows[w.reimbs[n].uuid].row.updatedAt
  {
    InitInv(start);
    InitIsGuarded(start);
    GuardedFrom(start, events);
  }

  lemma InitIsGuarded(start: World)
    requires Init(start)
    ensures Guarded(start)
  {
    assert forall n: nat :: !Busy(start, n);
  }

  /** So a read lets the decision graph run exactly when the row is still pending. */
  lemma GraphRunsIffPending(w: World, n: nat)
    requires Inv(w) && Guarded(w) && Enabled(w, ReadRow(n))
    ensures Next(w, ReadRow(n)).reimbs[n].pc.Deciding? <==> HasStatus(w.rows, w.reimbs[n].uuid, Pending)
  {
  }

  // The two events that may change a decided row: a review of it, and an over-ceiling escalation of it,
  // which alone skips the staleness check.
  predicate Touches(w: World, e: Event, u: nat) {
    (e.ReviewRow? && e.u == u) || (e.OverCeiling? && e.ok && e.n < |w.reimbs| && w.reimbs[e.n].uuid == u)
  }

  /** A decided row changes at an event exactly if the event is a review of it or a successful over-ceiling
      escalation of it. */
  lemma FirstDecisionStands(w: World, e: Event, u: nat)
    requires Inv(w) && Guarded(w) && Enabled(w, e) && Exists(w.rows, u) && !HasStatus(w.rows, u, Pending)
    ensures Exists(Next(w, e).rows, u) && !HasStatus(Next(w, e).rows, u, Pending)
    ensures Next(w, e).rows[u] == w.rows[u] <==> !Touches(w, e, u)
    ensures Touches(w, e, u) ==> Next(w, e).rows[u].row.updatedAt == w.clock
    ensures w.rows[u].row.updatedAt <= Next(w, e).rows[u].row.updatedAt
  {
    RowsMoveOnly(w, e);
    assert SlotMoves(w, e, w.rows[u], Next(w, e).rows[u], u);
    assert e.Decide? || e.EscalateFailure? ==> PastRead(w, e.n);
    if Touches(w, e, u) {
      assert Next(w, e).rows[u].row.updatedAt == w.clock;
    }
  }

  // Nothing in the run touches row u.
  ghost predicate Sparing(w: World, events: seq<Event>, u: nat)
    requires IsRun(w, events)
    decreases |events|
  {
    |events| == 0 || (!Touches(w, events[0], u) && Sparing(Next(w, events[0]), events[1..], u))
  }

  lemma {:induction false} StampsOnlyGrow(w: World, events: seq<Event>, u: nat)
    requires Inv(w) && Guarded(w) && AllowedRun(w, events) && Exists(w.rows, u) && !HasStatus(w.rows, u, Pending)
    ensures IsRun(w, events) && Exists(After(w, events).rows, u)
    ensures w.rows[u].row.updatedAt <= After(w, events).rows[u].row.updatedAt
    decreases |events|
  {
    if |events| > 0 {
      FirstDecisionStands(w, events[0], u);
      GuardedStep(w, events[0]);
      StampsOnlyGrow(Next(w, events[0]), events[1..], u);
    }
  }

  /** Over a whole run with any crashes and any events about other rows: the first decision on a row survives
      every redelivery exactly if nobody reviews that row and no over-ceiling message for it gets through. */
  lemma {:induction false} FirstDecisionSurvives(w: World, events: seq<Event>, u: nat)
    requires Inv(w) && Guarded(w) && AllowedRun(w, events) && Exists(w.rows, u) && !HasStatus(w.rows, u, Pending)
    ensures IsRun(w, events) && Exists(After(w, events).rows, u)
    ensures After(w, events).rows[u] == w.rows[u] <==> Sparing(w, events, u)
    decreases |events|
  {
    if |events| > 0 {
      var w1 := Next(w, events[0]);
      FirstDecisionStands(w, events[0], u);
      GuardedStep(w, events[0]);
      if Touches(w, events[0], u) {
        StampsOnlyGrow(w1, events[1..], u);
      } else {
        FirstDecisionSurvives(w1, events[1..], u);
      }
    }
  }
}
