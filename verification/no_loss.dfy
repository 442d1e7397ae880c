/** "Never lose a reimbursement": whatever crashes, is redelivered or is published ambiguously,
    an accepted key has a row, an uncommitted Request message, or a failure-log record. */
module NoLoss {
  import opened Models
  import opened Repository
  import opened Protocol
  import opened Invariants

  // An item some handler still owes an outcome. A commit requires that none is left, and a crash
  // turns every settled item of the message back into an open one.
  predicate Open(w: World, m: nat, i: nat, key: Key) {
    && m < |w.requests| && i < |w.requests[m].items| == |w.requests[m].ops|
    && w.requests[m].items[i].key == key && !w.requests[m].ops[i].Settled?
  }

  predicate LoggedAt(w: World, f: nat, key: Key) {
    f < |w.failures| && w.failures[f].item.Some? && w.failures[f].item.value.key == key
  }

  ghost predicate Logged(w: World, key: Key) {
    exists f: nat :: LoggedAt(w, f, key)
  }

  ghost predicate IsOpen(w: World, key: Key) {
    exists m: nat, i: nat :: Open(w, m, i, key)
  }

  ghost predicate Covered(w: World, key: Key) {
    KeyTaken(w.rows, key) || Logged(w, key) || IsOpen(w, key)
  }

  ghost predicate NothingLost(w: World) {
    forall key :: key in w.accepted ==> Covered(w, key)
  }

  lemma LogGrows(w: World, e: Event)
    requires Enabled(w, e)
    ensures w.failures <= Next(w, e).failures
  {
  }

  // The only event that removes a row leaves its owner still owing an outcome for the same key.
  lemma RowStaysCovered(w: World, e: Event, key: Key)
    requires Inv(w) && Enabled(w, e) && KeyTaken(w.rows, key)
    ensures Covered(Next(w, e), key)
  {
    var w' := Next(w, e);
    RowsMoveOnly(w, e);
    var u :| 0 <= u < |w.rows| && w.rows[u].Present? && w.rows[u].row.key == key;
    assert SlotMoves(w, e, w.rows[u], w'.rows[u], u);
    if w'.rows[u].Absent? {
      OpMovesOnly(w, e);
      assert w'.requests[e.m] == w'.requests[..|w.requests|][e.m];
      assert Open(w', e.m, e.i, key);
    }
  }

  // What a handler leaves behind when it settles an item.
  lemma SettlingCovers(w: World, e: Event)
    requires Inv(w) && Enabled(w, e) && IsItemEvent(e) && OpIs(w, e.m, e.i)
    requires e.m < |Next(w, e).requests| && e.i < |Next(w, e).requests[e.m].ops|
      && Next(w, e).requests[e.m].ops[e.i].Settled?
    ensures Covered(Next(w, e), ItemAt(w, e.m, e.i).key)
  {
    var w' := Next(w, e);
    var key := ItemAt(w, e.m, e.i).key;
    match e {
      case RejectItem(_, _) => assert LoggedAt(w', |w.failures|, key);
      case DropDuplicate(_, _) =>
      case PublishItem(m, i, _, _, _) =>
        assert Holds(w, m, i);
        assert w'.rows[Held(w, m, i)].row.key == key;
      case RequeueItem(m, i, delivery) =>
        if delivery.Raises() {
          assert LoggedAt(w', |w.failures|, key);
        } else {
          assert Open(w', |w.requests|, 0, key);
        }
      case EscalateItem(_, _, ok) =>
        if ok {
          assert w'.rows[|w.rows|].row.key == key;
        } else {
          assert LoggedAt(w', |w.failures|, key);
        }
      case _ =>
    }
  }

  lemma OpenStaysCovered(w: World, e: Event, m: nat, i: nat, key: Key)
    requires Inv(w) && Enabled(w, e) && Open(w, m, i, key)
    ensures Covered(Next(w, e), key)
  {
    var w' := Next(w, e);
    if IsItemEvent(e) {
      OpMovesOnly(w, e);
      assert w'.requests[m] == w'.requests[..|w.requests|][m];
      if e.m == m && e.i == i && w'.requests[m].ops[i].Settled? {
        SettlingCovers(w, e);
      } else {
        assert Open(w', m, i, key);
      }
    } else {
      assert Open(w', m, i, key);
    }
  }

  lemma CoveredStep(w: World, e: Event, key: Key)
    requires Inv(w) && Enabled(w, e) && Covered(w, key)
    ensures Covered(Next(w, e), key)
  {
    if KeyTaken(w.rows, key) {
      RowStaysCovered(w, e, key);
    } else if Logged(w, key) {
      LogGrows(w, e);
      var f: nat :| LoggedAt(w, f, key);
      assert LoggedAt(Next(w, e), f, key);
    } else {
      var m: nat, i: nat :| Open(w, m, i, key);
      OpenStaysCovered(w, e, m, i, key);
    }
  }

  // A 201 answer is only given for a batch that is on the topic.
  lemma AcceptedStep(w: World, e: Event, key: Key)
    requires Enabled(w, e) && key in Next(w, e).accepted && key !in w.accepted
    ensures Covered(Next(w, e), key)
  {
    var i :| 0 <= i < |e.items| && e.items[i].key == key;
    assert Open(Next(w, e), |w.requests|, i, key);
  }

  lemma NothingLostStep(w: World, e: Event)
    requires Inv(w) && NothingLost(w) && Enabled(w, e)
    ensures NothingLost(Next(w, e))
  {
    forall key | key in Next(w, e).accepted ensures Covered(Next(w, e), key) {
      if key in w.accepted {
        CoveredStep(w, e, key);
      } else {
        AcceptedStep(w, e, key);
      }
    }
  }

  lemma {:induction false} NothingLostFrom(w: World, events: seq<Event>)
    requires Inv(w) && NothingLost(w) && IsRun(w, events)
    ensures Inv(After(w, events)) && NothingLost(After(w, events))
    decreases |events|
  {
    if |events| > 0 {
      InvStep(w, events[0]);
      NothingLostStep(w, events[0]);
      NothingLostFrom(Next(w, events[0]), events[1..]);
    }
  }

  ghost predicate Uncommitted(w: World, key: Key) {
    exists m, i :: 0 <= m < |w.requests| && 0 <= i < |w.requests[m].items|
      && !w.requests[m].phase.Committed? && w.requests[m].items[i].key == key
  }

  lemma OpenIsUncommitted(w: World, m: nat, i: nat, key: Key)
    requires Shape(w) && Open(w, m, i, key)
    ensures Uncommitted(w, key)
  {
    assert ShapeOf(w.requests[m]);
    assert w.requests[m].items[i].key == key;
  }

  /** In every reachable state each accepted key has a row, an uncommitted Request message or a
      failure-log record, and the table never holds two rows for one key. */
  lemma NoAcceptedRequestIsLost(start: World, events: seq<Event>, key: Key)
    requires Init(start) && IsRun(start, events) && key in After(start, events).accepted
    ensures var w := After(start, events);
      (KeyTaken(w.rows, key) || Logged(w, key) || Uncommitted(w, key)) && UniqueKeys(w.rows)
  {
    InitInv(start);
    NothingLostFrom(start, events);
    var w := After(start, events);
    if !KeyTaken(w.rows, key) && !Logged(w, key) {
      var m: nat, i: nat :| Open(w, m, i, key);
      OpenIsUncommitted(w, m, i, key);
    }
  }

  /** Once the Request topic is drained, every accepted key is in the table or in the failure log. */
  lemma DrainedTopicHasSettledEverything(start: World, events: seq<Event>, key: Key)
    requires Init(start) && IsRun(start, events) && key in After(start, events).accepted
    requires forall m :: 0 <= m < |After(start, events).requests| ==> After(start, events).requests[m].phase.Committed?
    ensures KeyTaken(After(start, events).rows, key) || Logged(After(start, events), key)
  {
    NoAcceptedRequestIsLost(start, events, key);
  }

  // ---------------------------------------------------------------- from the answer to the outcome

  /** A 201 answer accepts every item of its batch. */
  lemma EveryAnsweredItemIsAccepted(w: World, items: seq<Item>, i: nat)
    requires Enabled(w, Post(items, Delivered)) && i < |items|
    ensures items[i].key in Next(w, Post(items, Delivered)).accepted
  {
  }

  lemma {:induction false} AnsweredStaysAccepted(w: World, events: seq<Event>, k: nat, i: nat)
    requires IsRun(w, events) && k < |events| && events[k].Post? && events[k].delivery.Delivered?
      && i < |events[k].items|
    ensures events[k].items[i].key in After(w, events).accepted
    decreases |events|
  {
    if k == 0 {
      EveryAnsweredItemIsAccepted(w, events[0].items, i);
      AcceptedForEver(Next(w, events[0]), events[1..], events[0].items[i].key);
    } else {
      AnsweredStaysAccepted(Next(w, events[0]), events[1..], k - 1, i);
    }
  }

  lemma {:induction false} AcceptedForEver(w: World, events: seq<Event>, key: Key)
    requires IsRun(w, events) && key in w.accepted
    ensures key in After(w, events).accepted
    decreases |events|
  {
    if |events| > 0 { AcceptedForEver(Next(w, events[0]), events[1..], key); }
  }

  /** The law itself, over events: for every item of every batch the API ever answered 201 for, at any later point of
      any run, the table has a row with its key, or a record of the failure log carries an item with its key, or a
      Request message whose offset is not committed does. */
  lemma NoAnsweredItemIsLost(start: World, events: seq<Event>, k: nat, i: nat)
    requires Init(start) && IsRun(start, events)
    requires k < |events| && events[k].Post? && events[k].delivery.Delivered? && i < |events[k].items|
    ensures var w, key := After(start, events), events[k].items[i].key;
      || (exists u :: 0 <= u < |w.rows| && w.rows[u].Present? && w.rows[u].row.key == key)
      || (exists f :: 0 <= f < |w.failures| && w.failures[f].item.Some? && w.failures[f].item.value.key == key)
      || (exists m, j :: 0 <= m < |w.requests| && 0 <= j < |w.requests[m].items|
            && !w.requests[m].phase.Committed? && w.requests[m].items[j].key == key)
  {
    var key := events[k].items[i].key;
    AnsweredStaysAccepted(start, events, k, i);
    NoAcceptedRequestIsLost(start, events, key);
    if Logged(After(start, events), key) {
      var f: nat :| LoggedAt(After(start, events), f, key);
    }
  }

  /** And once the Request topic is drained, every such item is in the table or in the failure log. */
  lemma DrainedTopicHasSettledEveryAnswer(start: World, events: seq<Event>, k: nat, i: nat)
    requires Init(start) && IsRun(start, events)
    requires k < |events| && events[k].Post? && events[k].delivery.Delivered? && i < |events[k].items|
    requires forall m :: 0 <= m < |After(start, events).requests| ==> After(start, events).requests[m].phase.Committed?
    ensures var w, key := After(start, events), events[k].items[i].key;
      || (exists u :: 0 <= u < |w.rows| && w.rows[u].Present? && w.rows[u].row.key == key)
      || (exists f :: 0 <= f < |w.failures| && w.failures[f].item.Some? && w.failures[f].item.value.key == key)
  {
    NoAnsweredItemIsLost(start, events, k, i);
  }
}
