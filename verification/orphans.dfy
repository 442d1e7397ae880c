/** Pending rows are never silently orphaned unless the publisher crashes between an insert's commit
    and the end of its compensation; such a crash orphans exactly the rows in that window. */
module Orphans {
  import opened Models
  import opened Repository
  import opened Protocol
  import opened Invariants
  import opened LinearToken

  ghost predicate InFlight(w: World, u: nat) {
    exists m: nat, i: nat :: Holds(w, m, i) && Held(w, m, i) == u
  }

  predicate LiveFor(w: World, n: nat, u: nat) {
    Live(w, n) && w.reimbs[n].uuid == u
  }

  ghost predicate HasLiveMessage(w: World, u: nat) {
    exists n: nat :: LiveFor(w, n, u)
  }

  predicate NamedAt(w: World, f: nat, u: nat) {
    f < |w.failures| && w.failures[f].uuid == Some(u)
  }

  ghost predicate Named(w: World, u: nat) {
    exists f: nat :: NamedAt(w, f, u)
  }

  ghost predicate Tracked(w: World, u: nat) {
    InFlight(w, u) || HasLiveMessage(w, u) || Named(w, u)
  }

  ghost predicate NoSilentOrphan(w: World) {
    forall u: nat :: HasStatus(w.rows, u, Pending) ==> Tracked(w, u)
  }

  // The only crash excluded: one that kills a handler holding a row.
  ghost predicate Calm(w: World, e: Event) {
    e.Crash? ==> forall i: nat :: !Holds(w, e.m, i)
  }

  lemma NamesGrow(w: World, e: Event, u: nat)
    requires Enabled(w, e) && Named(w, u)
    ensures Named(Next(w, e), u)
  {
    var f: nat :| NamedAt(w, f, u);
    assert NamedAt(Next(w, e), f, u);
  }

  lemma OtherHandlersHold(w: World, e: Event, m: nat, i: nat)
    requires Shape(w) && Enabled(w, e) && Calm(w, e) && Holds(w, m, i) && !(IsItemEvent(e) && e.m == m && e.i == i)
    ensures Holds(Next(w, e), m, i) && Held(Next(w, e), m, i) == Held(w, m, i)
  {
    if IsItemEvent(e) {
      OpMovesOnly(w, e);
      assert Next(w, e).requests[m] == Next(w, e).requests[..|w.requests|][m];
    }
  }

  lemma HolderStaysTracked(w: World, e: Event, m: nat, i: nat)
    requires Inv(w) && Enabled(w, e) && Calm(w, e) && Holds(w, m, i)
    requires HasStatus(Next(w, e).rows, Held(w, m, i), Pending)
    ensures Tracked(Next(w, e), Held(w, m, i))
  {
    if IsItemEvent(e) && e.m == m && e.i == i {
      HeldItemEvent(w, e, Held(w, m, i));
    } else {
      OtherHandlersHold(w, e, m, i);
    }
  }

  // Publishing hands the row over to a message; a failed delete hands it over to the log.
  lemma HeldItemEvent(w: World, e: Event, u: nat)
    requires Inv(w) && Enabled(w, e) && IsItemEvent(e) && Holds(w, e.m, e.i) && Held(w, e.m, e.i) == u
    requires HasStatus(Next(w, e).rows, u, Pending)
    ensures Tracked(Next(w, e), u)
  {
    var w' := Next(w, e);
    match e {
      case PublishItem(m, i, delivery, _, _) =>
        if delivery.Raises() {
          assert Holds(w', m, i) && Held(w', m, i) == u;
        } else {
          assert LiveFor(w', |w.reimbs|, u);
        }
      case BuildFails(m, i, _) => assert Holds(w', m, i) && Held(w', m, i) == u;
      case Delete(_, _, ok) =>
        if !ok {
          assert NamedAt(w', |w.failures|, u);
        }
      case _ =>
    }
  }

  // A message about a pending row is never dropped as stale, and never settles without a trace.
  lemma HandledMessageEvent(w: World, e: Event, u: nat)
    requires Inv(w) && Enabled(w, e) && IsMessageEvent(e) && LiveFor(w, e.n, u)
    requires HasStatus(w.rows, u, Pending) && HasStatus(Next(w, e).rows, u, Pending)
    ensures var w' := Next(w, e);
      LiveFor(w', e.n, u) || LiveFor(w', |w.reimbs|, u) || NamedAt(w', |w.failures|, u)
  {
    var w' := Next(w, e);
    if e.Republish? && !e.delivery.Raises() {
      assert LiveFor(w', |w.reimbs|, u);
    } else if e.Republish? || ((e.OverCeiling? || e.EscalateFailure?) && !e.ok) {
      assert NamedAt(w', |w.failures|, u);
    } else if e.AgentTake? || e.ReadFails? || e.ReadRow? || e.DecideFails? || e.AgentCrash? {
      assert LiveFor(w', e.n, u);
    }
  }

  lemma MessageStaysTracked(w: World, e: Event, n: nat, u: nat)
    requires Inv(w) && Enabled(w, e) && LiveFor(w, n, u)
    requires HasStatus(w.rows, u, Pending) && HasStatus(Next(w, e).rows, u, Pending)
    ensures Tracked(Next(w, e), u)
  {
    if IsMessageEvent(e) && e.n == n {
      HandledMessageEvent(w, e, u);
      assert Tracked(Next(w, e), u);
    } else {
      OtherMessagesStay(w, e, n);
      assert LiveFor(Next(w, e), n, u);
    }
  }

  lemma TrackedStep(w: World, e: Event, u: nat)
    requires Inv(w) && Enabled(w, e) && Calm(w, e) && HasStatus(Next(w, e).rows, u, Pending)
    requires HasStatus(w.rows, u, Pending) ==> Tracked(w, u)
    ensures Tracked(Next(w, e), u)
  {
    RowsMoveOnly(w, e);
    if u < |w.rows| {
      assert SlotMoves(w, e, w.rows[u], Next(w, e).rows[u], u);
      if InFlight(w, u) {
        var m: nat, i: nat :| Holds(w, m, i) && Held(w, m, i) == u;
        HolderStaysTracked(w, e, m, i);
      } else if HasLiveMessage(w, u) {
        var n: nat :| LiveFor(w, n, u);
        MessageStaysTracked(w, e, n, u);
      } else {
        NamesGrow(w, e, u);
      }
    } else {
      assert Holds(Next(w, e), e.m, e.i);
    }
  }

  ghost predicate CalmRun(w: World, events: seq<Event>)
    decreases |events|
  {
    |events| == 0 || (Enabled(w, events[0]) && Calm(w, events[0]) && CalmRun(Next(w, events[0]), events[1..]))
  }

  lemma {:induction false} CalmRunsAreRuns(w: World, events: seq<Event>)
    requires CalmRun(w, events)
    ensures IsRun(w, events)
    decreases |events|
  {
    if |events| > 0 {
      CalmRunsAreRuns(Next(w, events[0]), events[1..]);
    }
  }

  lemma {:induction false} NoOrphanFrom(w: World, events: seq<Event>)
    requires Inv(w) && NoSilentOrphan(w) && CalmRun(w, events)
    ensures IsRun(w, events) && Inv(After(w, events)) && NoSilentOrphan(After(w, events))
    decreases |events|
  {
    if |events| > 0 {
      var w' := Next(w, events[0]);
      InvStep(w, events[0]);
      forall u: nat | HasStatus(w'.rows, u, Pending) ensures Tracked(w', u) {
        TrackedStep(w, events[0], u);
      }
      NoOrphanFrom(w', events[1..]);
    }
  }

  /** Unless the publisher crashes while a handler holds a row, every pending row is in a handler's
      hands, has a live message, or is named in the failure log; the agent may crash at any time. */
  lemma PendingRowsAreNeverForgotten(start: World, events: seq<Event>, w: World, u: nat)
    requires Init(start) && CalmRun(start, events) && IsRun(start, events) && w == After(start, events)
    requires HasStatus(w.rows, u, Pending)
    ensures Tracked(w, u)
    ensures
      || (exists m: nat, i: nat :: m < |w.requests| && i < |w.requests[m].ops|
            && (w.requests[m].ops[i].Inserted? || w.requests[m].ops[i].Compensating?) && w.requests[m].ops[i].uuid == u)
      || (exists n: nat :: n < |w.reimbs| && w.reimbs[n].uuid == u && !w.reimbs[n].pc.Handled?)
      || (exists f: nat :: f < |w.failures| && w.failures[f].uuid == Some(u))
  {
    NoOrphanAlways(start, events);
    TrackedSaid(w, u);
  }

  // Only a crash of the publisher while a handler is between insert and the end of its compensation is left out.
  lemma WindowCrashesAreExcluded(w: World, e: Event)
    ensures Calm(w, e) <==> !(e.Crash? && e.m < |w.requests| && exists i: nat ::
      i < |w.requests[e.m].ops| && (w.requests[e.m].ops[i].Inserted? || w.requests[e.m].ops[i].Compensating?))
  {
    if e.Crash? && e.m < |w.requests| {
      assert forall i: nat :: i < |w.requests[e.m].ops| ==>
        (Holds(w, e.m, i) <==> w.requests[e.m].ops[i].Inserted? || w.requests[e.m].ops[i].Compensating?);
    }
  }

  lemma TrackedSaid(w: World, u: nat)
    requires Tracked(w, u)
    ensures
      || (exists m: nat, i: nat :: m < |w.requests| && i < |w.requests[m].ops|
            && (w.requests[m].ops[i].Inserted? || w.requests[m].ops[i].Compensating?) && w.requests[m].ops[i].uuid == u)
      || (exists n: nat :: n < |w.reimbs| && w.reimbs[n].uuid == u && !w.reimbs[n].pc.Handled?)
      || (exists f: nat :: f < |w.failures| && w.failures[f].uuid == Some(u))
  {
    if InFlight(w, u) {
      var m: nat, i: nat :| Holds(w, m, i) && Held(w, m, i) == u;
      assert w.requests[m].ops[i].uuid == u;
    } else if HasLiveMessage(w, u) {
      var n: nat :| LiveFor(w, n, u);
      assert w.reimbs[n].uuid == u;
    } else {
      var f: nat :| NamedAt(w, f, u);
      assert w.failures[f].uuid == Some(u);
    }
  }

  lemma NoOrphanAlways(start: World, events: seq<Event>)
    requires Init(start) && CalmRun(start, events) && IsRun(start, events)
    ensures NoSilentOrphan(After(start, events))
  {
    InitInv(start);
    assert forall u: nat :: !HasStatus(start.rows, u, Pending);
    NoOrphanFrom(start, events);
  }

  // ---------------------------------------------------------------- the crash that is excluded

  lemma CrashKeepsOtherHands(w: World, m: nat, m': nat, i: nat)
    requires Enabled(w, Crash(m)) && Holds(w, m', i)
    ensures var w' := Next(w, Crash(m)); m' != m ==> Holds(w', m', i) && Held(w', m', i) == Held(w, m', i)
  {
  }

  /** Of the pending rows still accounted for, a publisher crash orphans exactly those its handlers hold that no
      live message and no failure record speaks for, however many rows earlier crashes have orphaned. */
  lemma CrashOrphansExactlyTheWindow(w: World, m: nat, u: nat)
    requires Inv(w) && Tracked(w, u) && Enabled(w, Crash(m)) && HasStatus(w.rows, u, Pending)
    ensures HasStatus(Next(w, Crash(m)).rows, u, Pending)
    ensures !Tracked(Next(w, Crash(m)), u) <==>
      (exists i: nat :: Holds(w, m, i) && Held(w, m, i) == u) && !HasLiveMessage(w, u) && !Named(w, u)
  {
    var w' := Next(w, Crash(m));
    assert forall i: nat :: !Holds(w', m, i);
    assert forall m', i: nat :: 0 <= m' != m ==> Holds(w', m', i) == Holds(w, m', i);
    assert forall n: nat :: LiveFor(w', n, u) == LiveFor(w, n, u);
    assert forall f: nat :: NamedAt(w', f, u) == NamedAt(w, f, u);
    if InFlight(w', u) {
      var m': nat, i: nat :| Holds(w', m', i) && Held(w', m', i) == u;
      assert Holds(w, m', i);
    } else if InFlight(w, u) {
      var m': nat, i: nat :| Holds(w, m', i) && Held(w, m', i) == u;
      CrashKeepsOtherHands(w, m, m', i);
    }
  }

  // A row nothing will ever speak for again.
  ghost predicate Forgotten(w: World, u: nat) {
    HasStatus(w.rows, u, Pending) && NoMessageFor(w, u) && !InFlight(w, u) && !Named(w, u)
  }

  lemma DeleteNamesItsOwnRow(w: World, e: Event, u: nat)
    requires Shape(w) && Enabled(w, e) && Named(Next(w, e), u) && !Named(w, u)
    ensures e.Delete? ==> Holds(w, e.m, e.i) && Held(w, e.m, e.i) == u && !w.requests[e.m].ops[e.i].Inserted?
    ensures !e.Delete? ==> !NoMessageFor(w, u)
  {
    var f: nat :| NamedAt(Next(w, e), f, u);
    assert f < |w.failures| ==> NamedAt(w, f, u);
    assert !e.Delete? ==> w.reimbs[e.n].uuid == u;
  }

  lemma NewNamesComeFrom(w: World, e: Event, u: nat)
    requires Shape(w) && Enabled(w, e) && Named(Next(w, e), u) && !Named(w, u)
    ensures InFlight(w, u) || !NoMessageFor(w, u)
  {
    DeleteNamesItsOwnRow(w, e, u);
  }

  lemma ForgottenStep(w: World, e: Event, u: nat)
    requires Inv(w) && Enabled(w, e) && Forgotten(w, u)
    ensures Forgotten(Next(w, e), u)
  {
    var w' := Next(w, e);
    MovesOnly(w, e);
    assert SlotMoves(w, e, w.rows[u], w'.rows[u], u);
    if Named(w', u) {
      NewNamesComeFrom(w, e, u);
    }
    ForgottenStaysForgotten(w, e, w', u);
  }

  lemma ForgottenStaysForgotten(w: World, e: Event, w': World, u: nat)
    requires Owners(w) && Moves(w, e, w') && Forgotten(w, u)
    ensures HasStatus(w'.rows, u, Pending) && NoMessageFor(w', u) && !InFlight(w', u)
  {
    assert SlotMoves(w, e, w.rows[u], w'.rows[u], u);
    forall m: nat, i: nat | Holds(w', m, i) ensures Held(w', m, i) != u {
      assert HolderMoves(w, e, w', m, i);
      assert e != InsertPending(m, i) ==> Holds(w, m, i) && Held(w, m, i) == Held(w', m, i);
    }
  }

  /** What the accepted risk really is: such a row stays pending for ever. No message, log record,
      redelivery or reviewer ever reaches it again. */
  lemma {:induction false} ForgottenForEver(w: World, events: seq<Event>, u: nat)
    requires Inv(w) && Forgotten(w, u) && IsRun(w, events)
    ensures Forgotten(After(w, events), u)
    decreases |events|
  {
    if |events| > 0 {
      ForgottenStep(w, events[0], u);
      InvStep(w, events[0]);
      ForgottenForEver(Next(w, events[0]), events[1..], u);
    }
  }

  // A row still to be published is unknown to the failure log.
  ghost predicate Unlogged(w: World) {
    && (forall u: nat :: Named(w, u) ==> u < |w.rows|)
    && (forall m: nat, i: nat :: Holds(w, m, i) && w.requests[m].ops[i].Inserted? ==> !Named(w, Held(w, m, i)))
  }

  lemma UnloggedStep(w: World, e: Event)
    requires Inv(w) && Unlogged(w) && Enabled(w, e)
    ensures Unlogged(Next(w, e))
  {
    var w' := Next(w, e);
    MovesOnly(w, e);
    forall u: nat | Named(w', u) ensures u < |w'.rows| {
      if !Named(w, u) {
        NewNamesComeFrom(w, e, u);
      }
    }
    forall m: nat, i: nat | Holds(w', m, i) && w'.requests[m].ops[i].Inserted? ensures !Named(w', Held(w', m, i)) {
      assert HolderMoves(w, e, w', m, i);
      if Named(w', Held(w', m, i)) && !Named(w, Held(w', m, i)) {
        NewNamesComeFrom(w, e, Held(w', m, i));
        DeleteNamesItsOwnRow(w, e, Held(w', m, i));
      }
    }
  }

  lemma {:induction false} UnloggedAlways(w: World, events: seq<Event>)
    requires Inv(w) && Unlogged(w) && IsRun(w, events)
    ensures Inv(After(w, events)) && Unlogged(After(w, events))
    decreases |events|
  {
    if |events| > 0 {
      InvStep(w, events[0]);
      UnloggedStep(w, events[0]);
      UnloggedAlways(Next(w, events[0]), events[1..]);
    }
  }

  lemma CrashBeforePublishForgets(w: World, m: nat, i: nat)
    requires Inv(w) && Unlogged(w) && Holds(w, m, i) && w.requests[m].ops[i].Inserted? && Enabled(w, Crash(m))
    ensures Inv(Next(w, Crash(m))) && Forgotten(Next(w, Crash(m)), Held(w, m, i))
  {
    var w' := Next(w, Crash(m));
    var u := Held(w, m, i);
    InvStep(w, Crash(m));
    assert forall f: nat :: NamedAt(w', f, u) ==> NamedAt(w, f, u);
    forall m': nat, i': nat | Holds(w', m', i') ensures Held(w', m', i') != u {
      assert m' != m && Holds(w, m', i') && Held(w, m', i') == Held(w', m', i');
    }
  }

  /** A crash after the insert's commit and before its publish leaves a row that stays pending in every
      later state, with no message, no handler and no log record: the window of the accepted risk also
      opens on the publish itself, and what falls into it is silent. */
  lemma CrashBeforePublishOrphansForEver(start: World, before: seq<Event>, w: World, m: nat, i: nat, later: seq<Event>)
    requires Init(start) && IsRun(start, before) && w == After(start, before)
    requires Holds(w, m, i) && w.requests[m].ops[i].Inserted? && Enabled(w, Crash(m))
    requires IsRun(Next(w, Crash(m)), later)
    ensures Forgotten(After(Next(w, Crash(m)), later), Held(w, m, i))
  {
    InitInv(start);
    UnloggedAlways(start, before);
    CrashBeforePublishForgets(w, m, i);
    ForgottenForEver(Next(w, Crash(m)), later, Held(w, m, i));
  }
}
