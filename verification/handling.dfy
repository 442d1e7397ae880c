/** What one handling leaves behind, for every combination of faults and whatever else happens in the system
    between two of its steps: other handlers, deletes, reviews, redeliveries. */
module Handling {
  import opened Models
  import opened Repository
  import opened Protocol
  import opened Invariants
  import opened LinearToken
  import opened Services
  import G = DecisionGraph
  import Ledgers
  import NoLoss

  // A step of message n's own handler.
  predicate Own(e: Event, n: nat) {
    IsMessageEvent(e) && e.n == n
  }

  // A run in which message n's handler takes no step.
  ghost predicate Meanwhile(w: World, n: nat, between: seq<Event>) {
    IsRun(w, between) && forall k :: 0 <= k < |between| ==> !Own(between[k], n)
  }

  lemma {:induction false} HandlerWaits(w: World, n: nat, between: seq<Event>)
    requires Shape(w) && n < |w.reimbs| && Meanwhile(w, n, between)
    ensures var w' := After(w, between);
      Shape(w') && n < |w'.reimbs| && w'.reimbs[n] == w.reimbs[n] && w.failures <= w'.failures
    decreases |between|
  {
    if |between| > 0 {
      OtherMessagesStay(w, between[0], n);
      ShapeStep(w, between[0]);
      NoLoss.LogGrows(w, between[0]);
      HandlerWaits(Next(w, between[0]), n, between[1..]);
    }
  }

  // ---------------------------------------------------------------- a failed decision

  // Row u put in front of a human, explained, and nothing else changed.
  predicate Escalated(before: seq<Slot>, after: seq<Slot>, u: nat, header: Header, errors: seq<AttemptError>) {
    && Exists(before, u) && HasStatus(after, u, HumanReview) && after == before[u := after[u]]
    && after[u].row.reason == History(header, errors)
    && after[u].row.key == before[u].row.key && after[u].row.receipts == before[u].row.receipts
  }

  // How a failed decision ends, from the world it escalates in to the one after.
  predicate FailedToAHuman(before: World, after: World, u: nat, errors: seq<AttemptError>, ok: bool) {
    if ok && Exists(before.rows, u) then
      Escalated(before.rows, after.rows, u, DecisionStageFailure, errors) && after.failures == before.failures
    else
      after.rows == before.rows && after.failures == before.failures + [Failure(RowEscalationFailed, None, Some(u))]
  }

  /** Fail to a human: once a decision has failed, at whatever step, and whatever else happens before the
      escalation, the handling ends. The row is then at human-review, explained by a history that ends in stage
      `decide`, nothing else of it touched; or the escalation failed or the row is gone, the table is unchanged,
      and a second record names the uuid. */
  lemma FailedDecisionReachesAHuman(w: World, n: nat, cause: Cause, between: seq<Event>, ok: bool)
    requires Shape(w) && Enabled(w, DecideFails(n, cause)) && Meanwhile(Next(w, DecideFails(n, cause)), n, between)
    ensures var w1 := After(Next(w, DecideFails(n, cause)), between);
      && Enabled(w1, EscalateFailure(n, ok))
      && Failure(DecisionFailed, None, Some(w.reimbs[n].uuid)) in w1.failures
      && Next(w1, EscalateFailure(n, ok)).reimbs[n].pc.Handled?
      && FailedToAHuman(w1, Next(w1, EscalateFailure(n, ok)), w.reimbs[n].uuid,
        Appended(w.reimbs[n].errors, Stage.Decide, cause), ok)
  {
    var w0 := Next(w, DecideFails(n, cause));
    var w1 := After(w0, between);
    ShapeStep(w, DecideFails(n, cause));
    HandlerWaits(w0, n, between);
    var failed := Failure(DecisionFailed, None, Some(w.reimbs[n].uuid));
    assert w0.failures == w.failures + [failed];
    assert w1.failures[|w.failures|] == failed;
    EscalationEnds(w1, n, ok);
  }

  lemma EscalationEnds(w: World, n: nat, ok: bool)
    requires Enabled(w, EscalateFailure(n, ok))
    ensures var w' := Next(w, EscalateFailure(n, ok));
      n < |w'.reimbs| && w'.reimbs[n].pc.Handled? &&
      FailedToAHuman(w, w', w.reimbs[n].uuid, Appended(w.reimbs[n].errors, Stage.Decide, w.reimbs[n].pc.cause), ok)
  {
  }

  // ---------------------------------------------------------------- one whole write or none

  // The table before and after one step that changed it.
  datatype Change = Change(before: seq<Slot>, e: Event, after: seq<Slot>)

  // What message n's own handler did to the table over a run, step by step.
  ghost function ChangesBy(w: World, n: nat, events: seq<Event>): seq<Change>
    requires IsRun(w, events)
    decreases |events|
  {
    if |events| == 0 then []
    else
      var w' := Next(w, events[0]);
      (if Own(events[0], n) && w'.rows != w.rows then [Change(w.rows, events[0], w'.rows)] else [])
      + ChangesBy(w', n, events[1..])
  }

  // One complete decision, or one explained escalation.
  predicate Whole(c: Change, u: nat, errors: seq<AttemptError>) {
    match c.e
    case Decide(_, d) =>
      && Exists(c.before, u) && HasStatus(c.after, u, d.status) && c.after == c.before[u := c.after[u]]
      && c.after[u].row.key == c.before[u].row.key && c.after[u].row.reason == Rule(d.why)
      && Stored(c.before[u].row.receipts, d.receipts, c.after[u].row.receipts)
    case OverCeiling(_, _) => Escalated(c.before, c.after, u, RetryCeilingReached, errors)
    case EscalateFailure(_, _) =>
      Exists(c.after, u) && c.after[u].row.reason.History? && ThenDecide(errors, c.after[u].row.reason.errors)
      && Escalated(c.before, c.after, u, DecisionStageFailure, c.after[u].row.reason.errors)
    case _ => false
  }

  // The history of the message and one `decide` entry after it.
  predicate ThenDecide(errors: seq<AttemptError>, all: seq<AttemptError>) {
    |all| == |errors| + 1 && all[..|errors|] == errors && all[|errors|].stage.Decide?
        && all[|errors|].attempt == |errors| + 1
  }

  lemma OwnChange(w: World, e: Event, n: nat)
    requires Shape(w) && Enabled(w, e) && Own(e, n) && !e.AgentCrash?
    ensures var w' := Next(w, e);
      && n < |w.reimbs| <= |w'.reimbs| && w'.reimbs[n].uuid == w.reimbs[n].uuid
        && w'.reimbs[n].errors == w.reimbs[n].errors
      && (w.reimbs[n].pc.Handled? ==> w'.reimbs[n].pc.Handled? && w'.rows == w.rows)
      && (w'.rows != w.rows ==>
            w'.reimbs[n].pc.Handled? && Whole(Change(w.rows, e, w'.rows), w.reimbs[n].uuid, w.reimbs[n].errors))
  {
  }

  /** Over any run in which the agent does not crash on message n, everything else included: its handler changes
      the table at most once, and that change is one complete decision or one explained escalation of its row. */
  lemma {:induction false} NoPartialDecisionIsStored(w: World, n: nat, events: seq<Event>)
    requires Shape(w) && IsRun(w, events) && n < |w.reimbs| && AgentCrash(n) !in events
    ensures |ChangesBy(w, n, events)| <= if w.reimbs[n].pc.Handled? then 0 else 1
    ensures forall c :: c in ChangesBy(w, n, events) ==> Whole(c, w.reimbs[n].uuid, w.reimbs[n].errors)
    decreases |events|
  {
    if |events| > 0 {
      var e, w' := events[0], Next(w, events[0]);
      ShapeStep(w, e);
      if Own(e, n) {
        OwnChange(w, e, n);
      } else {
        OtherMessagesStay(w, e, n);
      }
      NoPartialDecisionIsStored(w', n, events[1..]);
    }
  }

  // The world that event k of a run meets.
  ghost function Met(w: World, events: seq<Event>, k: nat): (r: World)
    requires IsRun(w, events) && k < |events|
    ensures Enabled(r, events[k])
    decreases k
  {
    if k == 0 then w else Met(Next(w, events[0]), events[1..], k - 1)
  }

  /** Nothing is missed: whatever step of the handler changes the table, at any place of the run, its change is among
      them. */
  lemma {:induction false} EveryChangeIsThere(w: World, n: nat, events: seq<Event>, k: nat)
    requires IsRun(w, events) && k < |events| && IsMessageEvent(events[k]) && events[k].n == n
    ensures var w1 := Met(w, events, k);
      var w2 := Next(w1, events[k]);
      w2.rows != w1.rows ==> Change(w1.rows, events[k], w2.rows) in ChangesBy(w, n, events)
    decreases k
  {
    if k > 0 {
      EveryChangeIsThere(Next(w, events[0]), n, events[1..], k - 1);
    }
  }

  // ---------------------------------------------------------------- the policy's decision

  predicate FreshStart(w: World, n: nat) {
    PcIs(w, n) && w.reimbs[n].pc.Start? && w.reimbs[n].retry <= MAX_RETRY
  }

  // The read will let the message through to the graph.
  predicate ReachesGraph(w: World, n: nat, f: MessageFaults) {
    && FreshStart(w, n) && !f.readFails && Exists(w.rows, w.reimbs[n].uuid)
    && w.reimbs[n].publishedAt >= w.rows[w.reimbs[n].uuid].row.updatedAt
  }

  lemma RowWaitsStep(w: World, n: nat, e: Event)
    requires Inv(w) && Linear(w) && Enabled(w, e) && CrashFree(e) && !Own(e, n) && Live(w, n)
    ensures var u, w' := w.reimbs[n].uuid, Next(w, e); u < |w'.rows| && (w'.rows[u] == w.rows[u] || w'.rows[u].Absent?)
    ensures Live(Next(w, e), n) && Next(w, e).reimbs[n] == w.reimbs[n]
  {
    var u := w.reimbs[n].uuid;
    RowsMoveOnly(w, e);
    LivesMoveOnly(w, e);
    OtherMessagesStay(w, e, n);
    assert SlotMoves(w, e, w.rows[u], Next(w, e).rows[u], u);
  }

  /** Without crashes the row of a message in work waits for its handler: until that writes, the row stays exactly
      as it is, or a compensating delete removes it. */
  lemma {:induction false} RowWaits(w: World, n: nat, between: seq<Event>)
    requires Inv(w) && Linear(w) && CrashFreeRun(w, between) && Meanwhile(w, n, between) && Live(w, n)
    ensures var u, w' := w.reimbs[n].uuid, After(w, between);
      u < |w'.rows| && (w'.rows[u] == w.rows[u] || w'.rows[u].Absent?)
    ensures Inv(After(w, between)) && Linear(After(w, between))
    decreases |between|
  {
    if |between| > 0 {
      RowWaitsStep(w, n, between[0]);
      LinearStep(w, between[0]);
      RowWaits(Next(w, between[0]), n, between[1..]);
    }
  }

  // Payload, model calls and database all work.
  predicate GraphWorks(f: MessageFaults) {
    var o := f.oracle;
    && !f.payloadBad && o.extraction.Some? && !o.writeFails
    && (G.NeedsJudgment(o.extraction.value, o.today) ==> o.verdict.Some?)
  }

  // And the columns take what was extracted.
  predicate Decides(f: MessageFaults) {
    GraphWorks(f) && G.Fits(G.PolicyWrite(f.oracle), f.oracle.today)
  }

  // The handler's step out of the graph, on the table its write meets.
  function Turn(w: World, n: nat, f: MessageFaults): Event
    requires n < |w.reimbs|
  {
    var d := DecisionFor(w.rows, w.reimbs[n].uuid, f);
    if d.Some? then Event.Decide(n, d.value) else DecideFails(n, f.decideCause)
  }

  lemma TurnIs(w: World, n: nat, f: MessageFaults)
    requires n < |w.reimbs|
    ensures Turn(w, n, f).Decide? <==> Decides(f) || (GraphWorks(f) && !Exists(w.rows, w.reimbs[n].uuid))
    ensures Turn(w, n, f).Decide? ==> ReceiptsOk(Turn(w, n, f).decision.receipts)
    ensures Turn(w, n, f).Decide? ==> Turn(w, n, f).decision == DecisionOf(G.PolicyWrite(f.oracle))
  {
    var o := GraphOracle(w.rows, w.reimbs[n].uuid, f);
    assert o.extraction == f.oracle.extraction && o.today == f.oracle.today && o.verdict == f.oracle.verdict;
    if o.extraction.Some? {
      assert G.PolicyWrite(o) == G.PolicyWrite(f.oracle);
    }
    if DecisionFor(w.rows, w.reimbs[n].uuid, f).Some? {
      DecisionsAreStorable(w.rows, w.reimbs[n].uuid, f);
    }
  }

  // Row u holds what the policy prescribes, every extracted column stored over what it had.
  predicate HoldsThePolicysDecision(before: seq<Slot>, after: seq<Slot>, u: nat, f: MessageFaults)
    requires f.oracle.extraction.Some?
  {
    var o := f.oracle;
    var (status, why) := G.PolicyDecision(o.extraction.value, o.today, G.VerdictOr(o));
    && Exists(before, u) && HasStatus(after, u, status) && after == before[u := after[u]]
    && after[u].row.reason == Rule(why)
    && Stored(before[u].row.receipts, G.StoredReceipts(G.PolicyWrite(o)), after[u].row.receipts)
  }

  lemma TurnWrites(w: World, n: nat, f: MessageFaults)
    requires PcIs(w, n) && w.reimbs[n].pc.Deciding?
    ensures Enabled(w, Turn(w, n, f))
    ensures var w', u := Next(w, Turn(w, n, f)), w.reimbs[n].uuid;
      && n < |w'.reimbs|
      && (if Decides(f) && Exists(w.rows, u) then HoldsThePolicysDecision(w.rows, w'.rows, u, f) else w'.rows == w.rows)
      && (if Turn(w, n, f).Decide? then w'.reimbs[n].pc == Handled(RESOLVED) && w'.failures == w.failures
          else w'.reimbs[n] == w.reimbs[n].(pc := EscalatingFailure(f.decideCause)))
  {
    TurnIs(w, n, f);
  }

  /** The same by what was extracted, whatever the row held before: the amount if it is finite and not negative, the
      date and the currency are in the row afterwards, and where there is none the row keeps its own. */
  lemma ExtractedColumnsAreStored(w: World, n: nat, f: MessageFaults)
    requires PcIs(w, n) && w.reimbs[n].pc.Deciding? && Exists(w.rows, w.reimbs[n].uuid) && Decides(f)
    ensures Enabled(w, Turn(w, n, f)) && Exists(Next(w, Turn(w, n, f)).rows, w.reimbs[n].uuid)
    ensures var u, x := w.reimbs[n].uuid, f.oracle.extraction.value;
      var before, after := w.rows[u].row.receipts, Next(w, Turn(w, n, f)).rows[u].row.receipts;
      && after.value == (if x.value.Some? && x.value.value.Fin? && x.value.value.x >= 0.0 then Some(x.value.value.x)
                        else before.value)
      && after.date == (if x.date.Some? then x.date else before.date)
      && after.currency == (if x.currency.Some? then x.currency else before.currency)
  {
    TurnWrites(w, n, f);
    TurnIs(w, n, f);
    G.ColumnsFromTheExtraction(f.oracle);
  }

  /** When the policy's decision is stored, in full: the payload can be read, the extraction came, so did the verdict if
      the amount or the lack of one calls for it, the database works and the columns take the values. */
  lemma DecidesIff(f: MessageFaults)
    ensures Decides(f) <==>
      var o := f.oracle;
      && !f.payloadBad && !o.writeFails && o.extraction.Some? && !G.Refused(o.extraction.value, o.today)
      && (o.verdict.None? ==>
            var x := o.extraction.value;
            || x.value.None? || x.date.None? || o.today - x.date.value > 90
            || x.value.value.NegInf? || x.value.value.PosInf?
            || (x.value.value.Fin? && (x.value.value.x <= 200.0 || x.value.value.x > 2000.0)))
  {
    if f.oracle.extraction.Some? {
      G.RefusedIsWhatDoesNotFit(f.oracle);
    }
  }

  /** A message past the guards, in a crash-free system in which anything may happen before the graph writes: the
      row is then still as it was read, or a compensating delete has removed it. If it is there, it gets the
      status and reason the policy prescribes for what was extracted, every extracted column stored, exactly when
      payload, model calls and database work and the columns take the values; if it is gone and they work,
      the message is resolved and nothing at all is written; in every other case the decision has failed. */
  lemma RowGetsThePolicysDecision(w: World, n: nat, f: MessageFaults, between: seq<Event>)
    requires Inv(w) && Linear(w) && ReachesGraph(w, n, f)
    requires CrashFreeRun(Next(w, ReadRow(n)), between) && Meanwhile(Next(w, ReadRow(n)), n, between)
    ensures var u, w1 := w.reimbs[n].uuid, After(Next(w, ReadRow(n)), between);
      && u < |w1.rows| && (w1.rows[u] == w.rows[u] || w1.rows[u].Absent?)
      && n < |w1.reimbs| && Enabled(w1, Turn(w1, n, f))
      && var w2 := Next(w1, Turn(w1, n, f));
      if Decides(f) && Exists(w1.rows, u) then
        w2.reimbs[n].pc == Handled(RESOLVED) && HoldsThePolicysDecision(w1.rows, w2.rows, u, f)
      else if GraphWorks(f) && !Exists(w1.rows, u) then
        w2.reimbs[n].pc == Handled(RESOLVED) && w2.rows == w1.rows && w2.failures == w1.failures
      else
        Turn(w1, n, f) == DecideFails(n, f.decideCause) && w2.rows == w1.rows
  {
    var w0 := Next(w, ReadRow(n));
    assert w0.rows == w.rows && Live(w0, n) && w0.reimbs[n] == w.reimbs[n].(pc := Deciding);
    LinearStep(w, ReadRow(n));
    HandlerWaits(w0, n, between);
    RowWaits(w0, n, between);
    TurnIs(After(w0, between), n, f);
    TurnWrites(After(w0, between), n, f);
  }

  /** Both waits together, in a crash-free system, when the decision fails: from the read of a message past the
      guards, through whatever happens before the graph raises and before the escalation, the row stays as it was
      read or is compensated away; so it ends with a human, its columns as they were read, or a record names it. */
  lemma HandlingIsAccountedFor(w: World, n: nat, f: MessageFaults, between: seq<Event>, w1: World, later: seq<Event>,
        w2: World)
    requires Inv(w) && Linear(w) && ReachesGraph(w, n, f)
    requires CrashFreeRun(Next(w, ReadRow(n)), between) && Meanwhile(Next(w, ReadRow(n)), n, between)
    requires w1 == After(Next(w, ReadRow(n)), between) && n < |w1.reimbs| && Turn(w1, n, f).DecideFails?
      && Enabled(w1, Turn(w1, n, f))
    requires CrashFreeRun(Next(w1, Turn(w1, n, f)), later) && Meanwhile(Next(w1, Turn(w1, n, f)), n, later)
    requires w2 == After(Next(w1, Turn(w1, n, f)), later)
    ensures var u, e := w.reimbs[n].uuid, EscalateFailure(n, f.escalateOk);
      && !(Decides(f) && Exists(w1.rows, u)) && !(GraphWorks(f) && !Exists(w1.rows, u))
      && Enabled(w2, e) && Failure(DecisionFailed, None, Some(u)) in w2.failures
      && u < |w2.rows| && (w2.rows[u] == w.rows[u] || w2.rows[u].Absent?)
      && FailedToAHuman(w2, Next(w2, e), u, Appended(w.reimbs[n].errors, Stage.Decide, f.decideCause), f.escalateOk)
  {
    var w0 := Next(w, ReadRow(n));
    assert w0.rows == w.rows && Live(w0, n) && w0.reimbs[n] == w.reimbs[n].(pc := Deciding);
    LinearStep(w, ReadRow(n));
    HandlerWaits(w0, n, between);
    RowWaits(w0, n, between);
    TurnIs(w1, n, f);
    TurnWrites(w1, n, f);
    LinearStep(w1, Turn(w1, n, f));
    RowWaits(Next(w1, Turn(w1, n, f)), n, later);
    FailedDecisionReachesAHuman(w1, n, f.decideCause, later, f.escalateOk);
  }

  // ---------------------------------------------------------------- compensation

  predicate AgentReaches(w: World, e: Event, u: nat) {
    IsAgentWrite(e) && e.n < |w.reimbs| && w.reimbs[e.n].uuid == u
  }

  // Some agent write to row u went through during the run.
  ghost predicate AgentReached(w: World, events: seq<Event>, u: nat)
    requires IsRun(w, events)
    decreases |events|
  {
    |events| > 0 && (AgentReaches(w, events[0], u) || AgentReached(Next(w, events[0]), events[1..], u))
  }

  lemma WrittenRowsAreDecided(w: World, e: Event, u: nat)
    requires Enabled(w, e) && Exists(w.rows, u) && (e.OverCeiling? || e.Decide? || e.EscalateFailure?)
    ensures AgentReaches(w, e, u) ==> Exists(Next(w, e).rows, u) && !HasStatus(Next(w, e).rows, u, Pending)
    ensures !AgentReaches(w, e, u) ==> u < |Next(w, e).rows| && Next(w, e).rows[u] == w.rows[u]
  {
  }

  lemma PendingStep(w: World, e: Event, u: nat)
    requires Shape(w) && Enabled(w, e) && HasStatus(w.rows, u, Pending) && Exists(Next(w, e).rows, u)
    ensures HasStatus(Next(w, e).rows, u, Pending) <==> !AgentReaches(w, e, u)
  {
    RowsMoveOnly(w, e);
    assert SlotMoves(w, e, w.rows[u], Next(w, e).rows[u], u);
    if e.OverCeiling? || e.Decide? || e.EscalateFailure? {
      WrittenRowsAreDecided(w, e, u);
    }
  }

  lemma {:induction false} DecidedStaysDecided(w: World, events: seq<Event>, u: nat)
    requires Shape(w) && IsRun(w, events) && Exists(w.rows, u) && !HasStatus(w.rows, u, Pending)
    ensures Exists(After(w, events).rows, u) && !HasStatus(After(w, events).rows, u, Pending)
    decreases |events|
  {
    if |events| > 0 {
      RowsMoveOnly(w, events[0]);
      assert SlotMoves(w, events[0], w.rows[u], Next(w, events[0]).rows[u], u);
      ShapeStep(w, events[0]);
      DecidedStaysDecided(Next(w, events[0]), events[1..], u);
    }
  }

  /** A pending row that is still there at the end of a run is still pending exactly if no agent write reached it. */
  lemma {:induction false} PendingIffUnreached(w: World, events: seq<Event>, u: nat)
    requires Shape(w) && IsRun(w, events) && HasStatus(w.rows, u, Pending) && Exists(After(w, events).rows, u)
    ensures HasStatus(After(w, events).rows, u, Pending) <==> !AgentReached(w, events, u)
    decreases |events|
  {
    if |events| > 0 {
      var w' := Next(w, events[0]);
      RowsMoveOnly(w, events[0]);
      ShapeStep(w, events[0]);
      if !Exists(w'.rows, u) {
        Ledgers.DeletedForEver(w', events[1..], u);
      }
      PendingStep(w, events[0], u);
      if AgentReaches(w, events[0], u) {
        DecidedStaysDecided(w', events[1..], u);
      } else {
        PendingIffUnreached(w', events[1..], u);
      }
    }
  }

  lemma DeleteIsGated(w: World, m: nat, i: nat, ok: bool)
    requires Enabled(w, Delete(m, i, ok)) && Exists(w.rows, Held(w, m, i))
    ensures var w', u := Next(w, Delete(m, i, ok)), Held(w, m, i);
      && w'.rows == (if ok && HasStatus(w.rows, u, Pending) then w.rows[u := Absent] else w.rows)
      && w'.failures == if ok then w.failures
                        else w.failures + [Failure(CompensatingDeleteFailed, Some(ItemAt(w, m, i)), Some(u))]
  {
  }

  /** Compensation, whatever happens between a handler's insert and its delete: the inserted row is removed exactly
      if the delete works and no agent write has reached the row first. If the delete fails the row stays and a
      record names it; if it works too late the decided row stays, and the failure log says nothing. */
  lemma CompensationUndoesTheInsert(w: World, m: nat, i: nat, between: seq<Event>, ok: bool)
    requires Inv(w) && Enabled(w, InsertPending(m, i)) && IsRun(Next(w, InsertPending(m, i)), between)
    requires Enabled(After(Next(w, InsertPending(m, i)), between), Delete(m, i, ok))
    requires Held(After(Next(w, InsertPending(m, i)), between), m, i) == |w.rows|
    ensures var u, w0 := |w.rows|, Next(w, InsertPending(m, i));
      var w1 := After(w0, between);
      var w2 := Next(w1, Delete(m, i, ok));
      && Exists(w1.rows, u)
      && w2.rows == (if ok && !AgentReached(w0, between, u) then w1.rows[u := Absent] else w1.rows)
      && (!ok <==> w2.failures == w1.failures + [Failure(CompensatingDeleteFailed, Some(ItemAt(w1, m, i)), Some(u))])
      && (ok <==> w2.failures == w1.failures)
      && (AgentReached(w0, between, u) <==> !HasStatus(w1.rows, u, Pending))
  {
    var u, w0 := |w.rows|, Next(w, InsertPending(m, i));
    InvStep(w, InsertPending(m, i));
    InvAlways(w0, between);
    assert HasStatus(w0.rows, u, Pending);
    PendingIffUnreached(w0, between, u);
    DeleteIsGated(After(w0, between), m, i, ok);
  }
}
