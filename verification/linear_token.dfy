/** Crash-free runs: each uuid has at most one live Reimbursement message, and none once its row has
    left `pending`, so the unguarded decision UPDATE only ever hits pending rows. */
module LinearToken {
  import opened Models
  import opened Repository
  import opened Protocol
  import opened Invariants

  predicate CrashFree(e: Event) {
    !e.Crash? && !e.AgentCrash?
  }

  ghost predicate CrashFreeRun(w: World, events: seq<Event>) {
    IsRun(w, events) && forall k :: 0 <= k < |events| ==> CrashFree(events[k])
  }

  predicate Live(w: World, n: nat) {
    n < |w.reimbs| && !w.reimbs[n].pc.Handled?
  }

  ghost predicate Linear(w: World) {
    && (forall n: nat, n': nat :: Live(w, n) && Live(w, n') && w.reimbs[n].uuid == w.reimbs[n'].uuid ==> n == n')
    && (forall n: nat ::
          Live(w, n) && Exists(w.rows, w.reimbs[n].uuid) ==> HasStatus(w.rows, w.reimbs[n].uuid, Pending))
  }

  ghost predicate LivesMove(w: World, e: Event, w': World) {
    && |w.reimbs| <= |w'.reimbs|
    && (forall n: nat :: n < |w.reimbs| && Live(w', n) ==> Live(w, n))
    && (e.Republish? ==> Live(w, e.n) && !Live(w', e.n))
    && (e.OverCeiling? || e.Decide? || e.EscalateFailure? ==>
          Live(w, e.n) && (Live(w', e.n) ==> w'.rows == w.rows))
  }

  lemma OneEntryMovesLives(w: World, e: Event, w': World)
    requires Shape(w) && OneEntryMoves(w, e, w') && CrashFree(e)
    ensures forall n: nat :: n < |w.reimbs| && Live(w', n) ==> Live(w, n)
    ensures e.Republish? || e.OverCeiling? || e.Decide? || e.EscalateFailure? ==> Live(w, e.n)
  {
    forall n: nat | n < |w.reimbs| && Live(w', n) ensures Live(w, n) {
      assert w'.reimbs[n] == w'.reimbs[..|w.reimbs|][n];
    }
  }

  lemma SettlingEvents(w: World, e: Event)
    requires Enabled(w, e) && (e.Republish? || e.OverCeiling? || e.Decide? || e.EscalateFailure?)
    ensures !Live(Next(w, e), e.n)
  {
  }

  lemma LivesMoveOnly(w: World, e: Event)
    requires Shape(w) && Enabled(w, e) && CrashFree(e)
    ensures LivesMove(w, e, Next(w, e))
  {
    if IsMessageEvent(e) {
      MessageEventsMoveOneEntry(w, e);
      OneEntryMovesLives(w, e, Next(w, e));
      if e.Republish? || e.OverCeiling? || e.Decide? || e.EscalateFailure? { SettlingEvents(w, e); }
    } else if e.PublishItem? {
      PublishAppendsReimb(w, e);
      assert forall n: nat :: n < |w.reimbs| ==> Next(w, e).reimbs[n] == Next(w, e).reimbs[..|w.reimbs|][n];
    } else {
      OtherEventsLeaveReimbs(w, e);
    }
  }

  lemma AtMostOneKept(w: World, e: Event, w': World, n: nat, n': nat)
    requires Inv(w) && Linear(w) && Moves(w, e, w') && LivesMove(w, e, w')
    requires Live(w', n) && Live(w', n') && w'.reimbs[n].uuid == w'.reimbs[n'].uuid
    ensures n == n'
  {
    // A newcomer's uuid is either brand new to the topic or handed over by the message just settled.
    assert |w'.reimbs| > |w.reimbs| ==> AppendedReimb(w, e, w'.reimbs[|w.reimbs|]);
  }

  lemma PendingUntilWritten(w: World, e: Event, w': World, u: nat)
    requires RowsMove(w, e, w') && u < |w.rows| && (Exists(w.rows, u) ==> HasStatus(w.rows, u, Pending))
    requires WritesRow(w, e, u) ==> w'.rows == w.rows
    ensures Exists(w'.rows, u) ==> HasStatus(w'.rows, u, Pending)
  {
    assert SlotMoves(w, e, w.rows[u], w'.rows[u], u);
  }

  lemma LiveRowStaysPending(w: World, e: Event, w': World, n: nat)
    requires Inv(w) && Linear(w) && Moves(w, e, w') && LivesMove(w, e, w')
    requires Live(w', n) && Exists(w'.rows, w'.reimbs[n].uuid)
    ensures HasStatus(w'.rows, w'.reimbs[n].uuid, Pending)
  {
    var u := w'.reimbs[n].uuid;
    if n < |w.reimbs| {
      assert ReimbMoves(w, w.reimbs[n], w'.reimbs[n]);
      assert Live(w, n);
    } else {
      assert AppendedReimb(w, e, w'.reimbs[n]);
    }
    PendingUntilWritten(w, e, w', u);
  }

  lemma LinearKept(w: World, e: Event, w': World)
    requires Inv(w) && Linear(w) && Moves(w, e, w') && LivesMove(w, e, w')
    ensures Linear(w')
  {
    forall n: nat, n': nat | Live(w', n) && Live(w', n') && w'.reimbs[n].uuid == w'.reimbs[n'].uuid ensures n == n' {
      AtMostOneKept(w, e, w', n, n');
    }
    forall n: nat | Live(w', n) && Exists(w'.rows, w'.reimbs[n].uuid)
      ensures HasStatus(w'.rows, w'.reimbs[n].uuid, Pending)
    {
      LiveRowStaysPending(w, e, w', n);
    }
  }

  lemma LinearStep(w: World, e: Event)
    requires Inv(w) && Linear(w) && Enabled(w, e) && CrashFree(e)
    ensures Inv(Next(w, e)) && Linear(Next(w, e))
  {
    InvStep(w, e);
    MovesOnly(w, e);
    LivesMoveOnly(w, e);
    LinearKept(w, e, Next(w, e));
  }

  lemma {:induction false} LinearFrom(w: World, events: seq<Event>)
    requires Inv(w) && Linear(w) && CrashFreeRun(w, events)
    ensures Inv(After(w, events)) && Linear(After(w, events))
    decreases |events|
  {
    if |events| > 0 {
      LinearStep(w, events[0]);
      LinearFrom(Next(w, events[0]), events[1..]);
    }
  }

  lemma InitLinear(start: World)
    requires Init(start)
    ensures Inv(start) && Linear(start)
  {
    InitInv(start);
    assert forall n: nat :: !Live(start, n);
  }

  // ---------------------------------------------------------------- what it buys

  /** At most one live message per uuid, and none for a row that has left `pending`. */
  lemma AtMostOneLiveMessage(start: World, events: seq<Event>)
    requires Init(start) && CrashFreeRun(start, events)
    ensures Linear(After(start, events))
    ensures var w := After(start, events);
      && (forall n: nat, n': nat ::
            (&& n < |w.reimbs| && n' < |w.reimbs| && w.reimbs[n].uuid == w.reimbs[n'].uuid
             && !w.reimbs[n].pc.Handled? && !w.reimbs[n'].pc.Handled?) ==> n == n')
      && (forall n: nat :: n < |w.reimbs| && !w.reimbs[n].pc.Handled? && Exists(w.rows, w.reimbs[n].uuid) ==>
            w.rows[w.reimbs[n].uuid].row.status == Pending)
  {
    InitLinear(start);
    LinearFrom(start, events);
    LinearSaid(After(start, events));
  }

  // Nothing but the crashes is left out.
  lemma CrashesAreExcluded(e: Event)
    ensures CrashFree(e) <==> !(e.Crash? || e.AgentCrash?)
  {
  }

  lemma LinearSaid(w: World)
    requires Linear(w)
    ensures forall n: nat, n': nat ::
      (&& n < |w.reimbs| && n' < |w.reimbs| && w.reimbs[n].uuid == w.reimbs[n'].uuid
       && !w.reimbs[n].pc.Handled? && !w.reimbs[n'].pc.Handled?) ==> n == n'
    ensures forall n: nat :: n < |w.reimbs| && !w.reimbs[n].pc.Handled? && Exists(w.rows, w.reimbs[n].uuid) ==>
      w.rows[w.reimbs[n].uuid].row.status == Pending
  {
    forall n: nat, n': nat | n < |w.reimbs| && n' < |w.reimbs| && w.reimbs[n].uuid == w.reimbs[n'].uuid
      && !w.reimbs[n].pc.Handled? && !w.reimbs[n'].pc.Handled? ensures n == n'
    {
      assert Live(w, n) && Live(w, n');
    }
    forall n: nat | n < |w.reimbs| && !w.reimbs[n].pc.Handled? && Exists(w.rows, w.reimbs[n].uuid)
      ensures w.rows[w.reimbs[n].uuid].row.status == Pending
    {
      assert Live(w, n);
    }
  }

  lemma WriterIsLive(w: World, e: Event, u: nat)
    requires Linear(w) && Enabled(w, e) && WritesRow(w, e, u) && Exists(w.rows, u)
    ensures HasStatus(w.rows, u, Pending)
  {
    assert Live(w, e.n);
  }

  /** No agent write, over-ceiling escalation included, ever hits a row that is not pending. */
  lemma DecisionsOnlyHitPendingRows(start: World, events: seq<Event>, w: World, e: Event, u: nat)
    requires Init(start) && CrashFreeRun(start, events) && w == After(start, events)
    requires Enabled(w, e) && WritesRow(w, e, u) && Exists(w.rows, u)
    ensures HasStatus(w.rows, u, Pending)
  {
    AtMostOneLiveMessage(start, events);
    WriterIsLive(w, e, u);
  }

  predicate Final(w: World, u: nat) {
    HasStatus(w.rows, u, HumanApproved) || HasStatus(w.rows, u, AutoApproved)
  }

  lemma FinalStep(w: World, e: Event, u: nat)
    requires Inv(w) && Linear(w) && Enabled(w, e) && CrashFree(e) && Final(w, u)
    ensures u < |Next(w, e).rows| && Next(w, e).rows[u] == w.rows[u]
  {
    var w' := Next(w, e);
    RowsMoveOnly(w, e);
    assert SlotMoves(w, e, w.rows[u], w'.rows[u], u);
    if WritesRow(w, e, u) {
      LivesMoveOnly(w, e);
    }
  }

  /** human-approved and auto-approved are absorbing: the whole row stays as it was approved. */
  lemma {:induction false} ApprovalIsFinal(w: World, events: seq<Event>, u: nat)
    requires Inv(w) && Linear(w) && CrashFreeRun(w, events) && Final(w, u)
    ensures u < |After(w, events).rows| && After(w, events).rows[u] == w.rows[u]
    decreases |events|
  {
    if |events| > 0 {
      FinalStep(w, events[0], u);
      LinearStep(w, events[0]);
      ApprovalIsFinal(Next(w, events[0]), events[1..], u);
    }
  }

  /** The same, from the start: once a crash-free run has approved a row, nothing later changes it. */
  lemma ApprovedRowsNeverChange(start: World, before: seq<Event>, later: seq<Event>, w: World, u: nat)
    requires Init(start) && CrashFreeRun(start, before) && w == After(start, before)
    requires CrashFreeRun(w, later) && Final(w, u)
    ensures u < |After(w, later).rows| && After(w, later).rows[u] == w.rows[u]
  {
    InitLinear(start);
    LinearFrom(start, before);
    ApprovalIsFinal(w, later, u);
  }
}
