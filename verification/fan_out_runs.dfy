/** The fan-out on the protocol: every schedule of a batch's handlers is a run of the pipeline in which nobody else
    moves, so what is proved of schedules holds of the table, both topics and the failure log. */
module FanOutRuns {
  import opened Models
  import opened Repository
  import opened Protocol
  import opened Invariants
  import opened FanOut
  import T = Termination

  // ---------------------------------------------------------------- the batch in the world

  function TableKeys(rows: seq<Slot>): set<Key> {
    set u | 0 <= u < |rows| && rows[u].Present? :: rows[u].row.key
  }

  // The batch is the envelope of Request message m.
  predicate IsBatch(b: Batch, w: World, m: nat) {
    && WellFormed(b) && m < |w.requests| && w.requests[m].phase.InHand?
    && |w.requests[m].ops| == |w.requests[m].items| == |b.keys|
    && (b.escalating <==> w.requests[m].retry > MAX_RETRY)
    && (forall i :: 0 <= i < |b.keys| ==>
          w.requests[m].items[i].key == b.keys[i] && w.requests[m].items[i].valid == b.valid[i])
  }

  // Where both topics and the failure log ended when the batch was taken up.
  datatype Base = Base(reimbs: nat, requests: nat, failures: nat)

  function BaseOf(w: World): Base {
    Base(|w.reimbs|, |w.requests|, |w.failures|)
  }

  // Messages published since, by the key of the row each was published for: uuids are left out.
  function Published(w: World, base: Base, born: seq<Key>): set<Key> {
    set n | base.reimbs <= n < |w.reimbs| && w.reimbs[n].uuid < |born| :: born[w.reimbs[n].uuid]
  }

  function Requeued(w: World, base: Base): set<Key> {
    set r | base.requests <= r < |w.requests| && |w.requests[r].items| == 1 :: w.requests[r].items[0].key
  }

  function Recorded(w: World, base: Base): set<Key> {
    set f | base.failures <= f < |w.failures| && w.failures[f].item.Some? :: w.failures[f].item.value.key
  }

  function KeysOf(b: Batch, items: set<nat>): set<Key> {
    set i | i in items && i < |b.keys| :: b.keys[i]
  }

  // A handler in the schedule and in the world.
  predicate OpAt(pc: Pc, w: World, op: Op) {
    match pc
    case Queued => op.Todo?
    case Acquired => op.Todo?
    case RowIn => op.Inserted? && op.since <= w.clock && HasStatus(w.rows, op.uuid, Pending)
    case Undoing => op.Compensating? && HasStatus(w.rows, op.uuid, Pending)
    case Unpublished => op.Requeueing?
    case Finished(outcome) => op == Settled(outcome)
  }

  ghost predicate OpsMirror(s: State, w: World, m: nat) {
    && m < |w.requests| && |w.requests[m].ops| == |s.pcs|
    && forall i: nat :: i < |s.pcs| ==> OpAt(s.pcs[i], w, w.requests[m].ops[i])
  }

  predicate SetsMirror(b: Batch, s: State, w: World, base: Base, born: seq<Key>) {
    && base.reimbs <= |w.reimbs| && base.requests <= |w.requests| && base.failures <= |w.failures|
    && s.table == TableKeys(w.rows)
    && KeysOf(b, s.published) == Published(w, base, born)
    && KeysOf(b, s.requeued) == Requeued(w, base)
    && KeysOf(b, s.logged) == Recorded(w, base)
  }

  // The schedule's state is the world's, uuids aside.
  ghost predicate Mirrors(b: Batch, s: State, w: World, m: nat, base: Base, born: seq<Key>) {
    && Inv(w) && T.Registers(born, w) && Of(b, s) && IsBatch(b, w, m) && m < base.requests
    && OpsMirror(s, w, m) && SetsMirror(b, s, w, base, born)
  }

  // ---------------------------------------------------------------- one move, one event

  // What handler i does next, except that waiting for a permit is no event.
  function EventOf(b: Batch, s: State, i: nat, w: World, m: nat): Event
    requires CanMove(b, s, i) && IsBatch(b, w, m)
  {
    var f := b.faults[i];
    match s.pcs[i]
    case RowIn => if f.buildFails then BuildFails(m, i, f.publishCause)
        else PublishItem(m, i, f.publish, w.clock, f.publishCause)
    case Undoing => Delete(m, i, f.deleteOk)
    case Unpublished => RequeueItem(m, i, f.requeue)
    case _ =>
      if !b.valid[i] then RejectItem(m, i)
      else if f.writeFails then (if b.escalating then Event.EscalateItem(m, i, false)
        else InsertFails(m, i, f.writeCause))
      else if b.keys[i] in s.table then DropDuplicate(m, i)
      else if b.escalating then Event.EscalateItem(m, i, true)
      else InsertPending(m, i)
  }

  lemma KeysAreTaken(rows: seq<Slot>, key: Key)
    ensures key in TableKeys(rows) <==> KeyTaken(rows, key)
  {
  }

  lemma MoveIsEnabled(b: Batch, s: State, i: nat, w: World, m: nat)
    requires Shape(w) && CanMove(b, s, i) && IsBatch(b, w, m) && OpsMirror(s, w, m) && !s.pcs[i].Queued?
    requires s.table == TableKeys(w.rows)
    ensures Enabled(w, EventOf(b, s, i, w, m))
    ensures OpIs(w, m, i) && ItemAt(w, m, i).key == b.keys[i]
  {
    assert OpAt(s.pcs[i], w, w.requests[m].ops[i]);
    KeysAreTaken(w.rows, b.keys[i]);
  }

  lemma OthersMirror(pc: Pc, w: World, e: Event, w': World, j: nat)
    requires Owners(w) && OpMoves(w, e, w') && RowsMove(w, e, w') && w'.clock == w.clock + 1
    requires j < |w.requests[e.m].ops| && j != e.i && OpAt(pc, w, w.requests[e.m].ops[j])
    ensures OpAt(pc, w', w'.requests[e.m].ops[j])
  {
    assert w'.requests[e.m].ops[j] == w.requests[e.m].ops[j];
    if pc.RowIn? || pc.Undoing? {
      assert Holds(w, e.m, j);
      var u := Held(w, e.m, j);
      assert SlotMoves(w, e, w.rows[u], w'.rows[u], u);
    }
  }

  // The handler an item event was about, right after it.
  function OpAfter(w: World, e: Event): Op
    requires Enabled(w, e) && IsItemEvent(e)
  {
    match e
    case RejectItem(_, _) => Settled(INVALID)
    case InsertPending(_, _) => Op.Inserted(|w.rows|, w.clock + 1)
    case DropDuplicate(_, _) => Settled(DUPLICATE)
    case InsertFails(_, _, cause) => Requeueing(DbInsert, cause)
    case PublishItem(m, i, delivery, _, cause) =>
      if delivery.Raises() then Compensating(w.requests[m].ops[i].uuid, Publish, cause) else Settled(PUBLISHED)
    case BuildFails(m, i, cause) => Compensating(w.requests[m].ops[i].uuid, DbInsert, cause)
    case Delete(m, i, _) => Requeueing(w.requests[m].ops[i].stage, w.requests[m].ops[i].cause)
    case RequeueItem(_, _, delivery) => Settled(if delivery.Raises() then LOGGED else REQUEUED)
    case EscalateItem(_, _, ok) => Settled(if ok then ESCALATED else LOGGED)
  }

  lemma NextOp(w: World, e: Event)
    requires Enabled(w, e) && IsItemEvent(e)
    ensures var w' := Next(w, e);
      && e.m < |w'.requests| && |w'.requests[e.m].ops| == |w.requests[e.m].ops|
      && w'.requests[e.m].ops[e.i] == OpAfter(w, e) && w'.clock == w.clock + 1
      && (e.InsertPending? ==> HasStatus(w'.rows, |w.rows|, Pending))
      && (e.PublishItem? || e.BuildFails? ==> w'.rows == w.rows)
  {
  }

  lemma MoverMirrors(b: Batch, s: State, i: nat, w: World, m: nat)
    requires CanMove(b, s, i) && IsBatch(b, w, m) && !s.pcs[i].Queued? && OpAt(s.pcs[i], w, w.requests[m].ops[i])
    requires Enabled(w, EventOf(b, s, i, w, m))
    ensures var w' := Next(w, EventOf(b, s, i, w, m));
      m < |w'.requests| && i < |w'.requests[m].ops| && OpAt(Move(b, s, i).pcs[i], w', w'.requests[m].ops[i])
  {
    var e := EventOf(b, s, i, w, m);
    NextOp(w, e);
    PcAfter(b, s, i, w, m, Next(w, e));
  }

  lemma PcAfter(b: Batch, s: State, i: nat, w: World, m: nat, w': World)
    requires CanMove(b, s, i) && IsBatch(b, w, m) && !s.pcs[i].Queued? && OpAt(s.pcs[i], w, w.requests[m].ops[i])
    requires Enabled(w, EventOf(b, s, i, w, m)) && w'.clock == w.clock + 1
    requires EventOf(b, s, i, w, m).InsertPending? ==> HasStatus(w'.rows, |w.rows|, Pending)
    requires EventOf(b, s, i, w, m).PublishItem? || EventOf(b, s, i, w, m).BuildFails? ==> w'.rows == w.rows
    ensures OpAt(Move(b, s, i).pcs[i], w', OpAfter(w, EventOf(b, s, i, w, m)))
  {
  }

  lemma OpsMove(b: Batch, s: State, i: nat, w: World, e: Event, w': World)
    requires Inv(w) && CanMove(b, s, i) && OpMoves(w, e, w') && RowsMove(w, e, w') && OpsMirror(s, w, e.m) && e.i == i
    requires w'.clock == w.clock + 1 && OpAt(Move(b, s, i).pcs[i], w', w'.requests[e.m].ops[i])
    ensures OpsMirror(Move(b, s, i), w', e.m)
  {
    forall j: nat | j < |s.pcs| ensures OpAt(Move(b, s, i).pcs[j], w', w'.requests[e.m].ops[j]) {
      if j != i {
        OthersMirror(s.pcs[j], w, e, w', j);
        assert Move(b, s, i).pcs[j] == s.pcs[j];
      }
    }
  }

  // ---------------------------------------------------------------- what one event adds

  predicate Publishes(e: Event) { e.PublishItem? && e.delivery.Reached() }
  predicate Requeues(e: Event) { e.RequeueItem? && e.delivery.Reached() }
  predicate Records(e: Event) {
    e.RejectItem? || (e.Delete? && !e.ok) || (e.RequeueItem? && e.delivery.Raises()) || (e.EscalateItem? && !e.ok)
  }
  predicate Fills(e: Event) { e.InsertPending? || (e.EscalateItem? && e.ok) }

  function With(keys: set<Key>, more: bool, key: Key): set<Key> {
    if more then keys + {key} else keys
  }

  lemma InsertedKeys(rows: seq<Slot>, row: Row)
    ensures TableKeys(rows + [Present(row)]) == TableKeys(rows) + {row.key}
  {
    var after := rows + [Present(row)];
    assert after[|rows|] == Present(row);
    forall k | k in TableKeys(rows) + {row.key} ensures k in TableKeys(after) {
      if k in TableKeys(rows) {
        var u :| 0 <= u < |rows| && rows[u].Present? && rows[u].row.key == k;
        assert after[u] == rows[u];
      }
    }
  }

  lemma DeletedKeys(rows: seq<Slot>, u: nat)
    requires UniqueKeys(rows) && Exists(rows, u)
    ensures TableKeys(rows[u := Absent]) == TableKeys(rows) - {rows[u].row.key}
  {
    var after := rows[u := Absent];
    forall k | k in TableKeys(rows) - {rows[u].row.key} ensures k in TableKeys(after) {
      var v :| 0 <= v < |rows| && rows[v].Present? && rows[v].row.key == k;
      assert after[v] == rows[v];
    }
  }

  lemma TableMoves(w: World, e: Event)
    requires Inv(w) && Enabled(w, e) && IsItemEvent(e)
    requires e.Delete? ==> HasStatus(w.rows, Held(w, e.m, e.i), Pending)
    ensures var key := ItemAt(w, e.m, e.i).key;
      TableKeys(Next(w, e).rows) ==
        if e.Delete? && e.ok then TableKeys(w.rows) - {key} else With(TableKeys(w.rows), Fills(e), key)
  {
    if Fills(e) {
      InsertedKeys(w.rows, Next(w, e).rows[|w.rows|].row);
      assert Next(w, e).rows == w.rows + [Present(Next(w, e).rows[|w.rows|].row)];
    } else if e.Delete? {
      DeletedKeys(w.rows, Held(w, e.m, e.i));
    }
  }

  lemma PublishedGrows(w: World, w': World, base: Base, born: seq<Key>, born': seq<Key>)
    requires base.reimbs <= |w.reimbs| && w.reimbs <= w'.reimbs && |w'.reimbs| <= |w.reimbs| + 1 && born <= born'
    requires forall n :: 0 <= n < |w.reimbs| ==> w.reimbs[n].uuid < |born|
    requires |w'.reimbs| > |w.reimbs| ==> w'.reimbs[|w.reimbs|].uuid < |born'|
    ensures Published(w', base, born') ==
      if |w'.reimbs| > |w.reimbs| then Published(w, base, born) + {born'[w'.reimbs[|w.reimbs|].uuid]}
        else Published(w, base, born)
  {
    forall k | k in Published(w, base, born) ensures k in Published(w', base, born') {
      var n :| base.reimbs <= n < |w.reimbs| && w.reimbs[n].uuid < |born| && born[w.reimbs[n].uuid] == k;
      assert w'.reimbs[n] == w.reimbs[n] && born'[w.reimbs[n].uuid] == k;
    }
    forall k | k in Published(w', base, born') && k !in Published(w, base, born)
      ensures |w'.reimbs| > |w.reimbs| && k == born'[w'.reimbs[|w.reimbs|].uuid]
    {
      var n :| base.reimbs <= n < |w'.reimbs| && w'.reimbs[n].uuid < |born'| && born'[w'.reimbs[n].uuid] == k;
    }
  }

  lemma NewMessage(w: World, e: Event)
    requires Shape(w) && Enabled(w, e) && IsItemEvent(e)
    ensures var w' := Next(w, e);
      && w.reimbs <= w'.reimbs && |w'.reimbs| == |w.reimbs| + (if Publishes(e) then 1 else 0)
      && (Publishes(e) ==> Holds(w, e.m, e.i) && w'.reimbs[|w.reimbs|].uuid == Held(w, e.m, e.i))
  {
    T.ItemEventsKeepReimbs(w, e);
  }

  lemma PublishedMoves(w: World, e: Event, base: Base, born: seq<Key>)
    requires Inv(w) && Enabled(w, e) && IsItemEvent(e) && T.Registers(born, w) && base.reimbs <= |w.reimbs|
    ensures Published(Next(w, e), base, T.BornBy(w, e, born))
         == With(Published(w, base, born), Publishes(e), ItemAt(w, e.m, e.i).key)
  {
    NewMessage(w, e);
    T.RegistersStep(born, w, e);
    var born' := T.BornBy(w, e, born);
    if Publishes(e) {
      var u := Held(w, e.m, e.i);
      assert Exists(w.rows, u) && born'[u] == born[u] == ItemAt(w, e.m, e.i).key;
    }
    PublishedGrows(w, Next(w, e), base, born, born');
  }

  lemma RequeuedMoves(w: World, e: Event, base: Base)
    requires Shape(w) && Enabled(w, e) && IsItemEvent(e) && e.m < base.requests <= |w.requests|
    ensures Requeued(Next(w, e), base) == With(Requeued(w, base), Requeues(e), ItemAt(w, e.m, e.i).key)
  {
    var w' := Next(w, e);
    OpMovesOnly(w, e);
    assert |w'.requests| > |w.requests| <==> Requeues(e);
    RequeuedGrows(w, w', e.m, base);
  }

  lemma RequeuedGrows(w: World, w': World, m: nat, base: Base)
    requires m < base.requests <= |w.requests| <= |w'.requests| <= |w.requests| + 1
    requires w'.requests[..|w.requests|] == w.requests[m := w.requests[m].(ops := w'.requests[m].ops)]
    requires |w'.requests| > |w.requests| ==> |w'.requests[|w.requests|].items| == 1
    ensures Requeued(w', base) ==
      if |w'.requests| > |w.requests| then Requeued(w, base) + {w'.requests[|w.requests|].items[0].key}
        else Requeued(w, base)
  {
    forall r | base.requests <= r < |w.requests| ensures w'.requests[r] == w.requests[r] {
      assert w'.requests[r] == w'.requests[..|w.requests|][r];
    }
    forall k | k in Requeued(w, base) ensures k in Requeued(w', base) {
      var r :| base.requests <= r < |w.requests| && |w.requests[r].items| == 1 && w.requests[r].items[0].key == k;
      assert w'.requests[r] == w.requests[r];
    }
  }

  lemma RecordedMoves(w: World, e: Event, base: Base)
    requires Enabled(w, e) && IsItemEvent(e) && base.failures <= |w.failures|
    ensures Recorded(Next(w, e), base) == With(Recorded(w, base), Records(e), ItemAt(w, e.m, e.i).key)
  {
    var w' := Next(w, e);
    assert w.failures <= w'.failures && |w'.failures| == |w.failures| + if Records(e) then 1 else 0;
    assert Records(e) ==> w'.failures[|w.failures|].item == Some(ItemAt(w, e.m, e.i));
    RecordedGrows(w, w', base);
  }

  lemma RecordedGrows(w: World, w': World, base: Base)
    requires base.failures <= |w.failures| <= |w'.failures| <= |w.failures| + 1 && w.failures <= w'.failures
    requires |w'.failures| > |w.failures| ==> w'.failures[|w.failures|].item.Some?
    ensures Recorded(w', base) ==
      if |w'.failures| > |w.failures| then Recorded(w, base) + {w'.failures[|w.failures|].item.value.key}
        else Recorded(w, base)
  {
    forall k | k in Recorded(w, base) ensures k in Recorded(w', base) {
      var f :| base.failures <= f < |w.failures| && w.failures[f].item.Some? && w.failures[f].item.value.key == k;
      assert w'.failures[f] == w.failures[f];
    }
  }

  // ---------------------------------------------------------------- what one move adds

  lemma KeysAdded(b: Batch, items: set<nat>, i: nat, more: bool)
    requires i < |b.keys|
    ensures KeysOf(b, if more then items + {i} else items) == With(KeysOf(b, items), more, b.keys[i])
  {
    assert more ==> i in items + {i};
  }

  lemma MoveAdds(b: Batch, s: State, i: nat, w: World, m: nat)
    requires CanMove(b, s, i) && IsBatch(b, w, m) && !s.pcs[i].Queued?
    ensures var e, t := EventOf(b, s, i, w, m), Move(b, s, i);
      && Of(b, t) && IsItemEvent(e) && e.m == m && e.i == i
      && t.table == (if e.Delete? && e.ok then s.table - {b.keys[i]} else With(s.table, Fills(e), b.keys[i]))
      && t.published == (if Publishes(e) then s.published + {i} else s.published)
      && t.requeued == (if Requeues(e) then s.requeued + {i} else s.requeued)
      && t.logged == (if Records(e) then s.logged + {i} else s.logged)
  {
  }

  lemma SetsMove(b: Batch, s: State, i: nat, w: World, m: nat, base: Base, born: seq<Key>)
    requires Mirrors(b, s, w, m, base, born) && CanMove(b, s, i) && !s.pcs[i].Queued?
    requires Enabled(w, EventOf(b, s, i, w, m))
    ensures var e := EventOf(b, s, i, w, m); SetsMirror(b, Move(b, s, i), Next(w, e), base, T.BornBy(w, e, born))
  {
    var e := EventOf(b, s, i, w, m);
    MoveIsEnabled(b, s, i, w, m);
    MoveAdds(b, s, i, w, m);
    GatesArePending(b, s, i, w, m);
    TableMoves(w, e);
    PublishedMoves(w, e, base, born);
    RequeuedMoves(w, e, base);
    RecordedMoves(w, e, base);
    KeysAdded(b, s.published, i, Publishes(e));
    KeysAdded(b, s.requeued, i, Requeues(e));
    KeysAdded(b, s.logged, i, Records(e));
    TopicsGrow(w, e);
  }

  lemma GatesArePending(b: Batch, s: State, i: nat, w: World, m: nat)
    requires CanMove(b, s, i) && IsBatch(b, w, m) && OpsMirror(s, w, m)
    ensures EventOf(b, s, i, w, m).Delete? ==> Holds(w, m, i) && HasStatus(w.rows, Held(w, m, i), Pending)
  {
    assert OpAt(s.pcs[i], w, w.requests[m].ops[i]);
  }

  lemma TopicsGrow(w: World, e: Event)
    requires Shape(w) && Enabled(w, e) && IsItemEvent(e)
    ensures var w' := Next(w, e);
      |w.reimbs| <= |w'.reimbs| && |w.requests| <= |w'.requests| && |w.failures| <= |w'.failures|
  {
    NewMessage(w, e);
    OpMovesOnly(w, e);
  }

  lemma BatchStays(b: Batch, w: World, e: Event, w': World)
    requires OpMoves(w, e, w') && IsBatch(b, w, e.m)
    ensures IsBatch(b, w', e.m)
  {
    assert w'.requests[e.m] == w'.requests[..|w.requests|][e.m];
  }

  /** One move of the schedule is one event of the pipeline, or none when a handler only gets its permit. */
  lemma MoveIsARun(b: Batch, s: State, i: nat, w: World, m: nat, base: Base, born: seq<Key>)
      returns (events: seq<Event>, w': World, born': seq<Key>)
    requires Mirrors(b, s, w, m, base, born) && CanMove(b, s, i)
    ensures Reaches(w, events, w') && Mirrors(b, Move(b, s, i), w', m, base, born')
    ensures forall e :: e in events ==> IsItemEvent(e) && e.m == m
  {
    if s.pcs[i].Queued? {
      events, w', born' := [], w, born;
      PermitIsNoEvent(s, Move(b, s, i), i, w, m);
    } else {
      var e := EventOf(b, s, i, w, m);
      EventMirrors(b, s, i, w, m, base, born);
      ReachesOne(w, e);
      events, w', born' := [e], Next(w, e), T.BornBy(w, e, born);
    }
  }

  lemma EventMirrors(b: Batch, s: State, i: nat, w: World, m: nat, base: Base, born: seq<Key>)
    requires Mirrors(b, s, w, m, base, born) && CanMove(b, s, i) && !s.pcs[i].Queued?
    ensures var e := EventOf(b, s, i, w, m);
      && Enabled(w, e) && IsItemEvent(e) && e.m == m
      && Mirrors(b, Move(b, s, i), Next(w, e), m, base, T.BornBy(w, e, born))
  {
    var e := EventOf(b, s, i, w, m);
    MoveIsEnabled(b, s, i, w, m);
    MoveAdds(b, s, i, w, m);
    InvStep(w, e);
    T.RegistersStep(born, w, e);
    MirroredOps(b, s, i, w, m);
    SetsMove(b, s, i, w, m, base, born);
  }

  lemma MirroredOps(b: Batch, s: State, i: nat, w: World, m: nat)
    requires Inv(w) && CanMove(b, s, i) && IsBatch(b, w, m) && OpsMirror(s, w, m) && !s.pcs[i].Queued?
    requires Enabled(w, EventOf(b, s, i, w, m))
    ensures var w' := Next(w, EventOf(b, s, i, w, m)); IsBatch(b, w', m) && OpsMirror(Move(b, s, i), w', m)
  {
    var e := EventOf(b, s, i, w, m);
    MoveAdds(b, s, i, w, m);
    assert OpAt(s.pcs[i], w, w.requests[m].ops[i]);
    OpMovesOnly(w, e);
    RowsMoveOnly(w, e);
    BatchStays(b, w, e, Next(w, e));
    MoverMirrors(b, s, i, w, m);
    OpsMove(b, s, i, w, e, Next(w, e));
  }

  lemma PermitIsNoEvent(s: State, t: State, i: nat, w: World, m: nat)
    requires OpsMirror(s, w, m) && i < |s.pcs| && s.pcs[i].Queued? && t.pcs == s.pcs[i := Acquired]
    ensures OpsMirror(t, w, m)
  {
    forall j: nat | j < |t.pcs| ensures OpAt(t.pcs[j], w, w.requests[m].ops[j]) {
      assert OpAt(s.pcs[j], w, w.requests[m].ops[j]);
    }
  }

  /** Every schedule is a run in which only the batch's own handlers move. */
  lemma {:induction false} ScheduleIsARun(b: Batch, s: State, schedule: seq<nat>, w: World, m: nat, base: Base,
        born: seq<Key>)
      returns (events: seq<Event>, w': World, born': seq<Key>)
    requires Mirrors(b, s, w, m, base, born) && IsSchedule(b, s, schedule)
    ensures Reaches(w, events, w') && Mirrors(b, Outcome(b, s, schedule), w', m, base, born')
    ensures forall e :: e in events ==> IsItemEvent(e) && e.m == m
    decreases |schedule|
  {
    if |schedule| == 0 {
      events, w', born' := [], w, born;
    } else {
      var first, w1, born1 := MoveIsARun(b, s, schedule[0], w, m, base, born);
      var rest: seq<Event>;
      rest, w', born' := ScheduleIsARun(b, Move(b, s, schedule[0]), schedule[1..], w1, m, base, born1);
      Compose(w, first, w1, rest, w');
      events := first + rest;
    }
  }

  // ---------------------------------------------------------------- schedules in the pipeline

  // The batch as a publisher meets it that has just taken up message m.
  predicate Fresh(b: Batch, w: World, m: nat) {
    && IsBatch(b, w, m) && b.taken == TableKeys(w.rows)
    && forall i :: 0 <= i < |b.keys| ==> w.requests[m].ops[i].Todo?
  }

  function Born(w: World): seq<Key> {
    seq(|w.rows|, u requires 0 <= u < |w.rows| => if w.rows[u].Present? then w.rows[u].row.key else T.NO_KEY)
  }

  lemma StartMirrors(b: Batch, w: World, m: nat)
    requires Inv(w) && Fresh(b, w, m)
    ensures Mirrors(b, FanOut.Start(b), w, m, BaseOf(w), Born(w))
  {
    assert KeysOf(b, {}) == {};
    assert Published(w, BaseOf(w), Born(w)) == {};
    assert Requeued(w, BaseOf(w)) == {};
    assert Recorded(w, BaseOf(w)) == {};
  }

  // Two worlds alike in all a batch leaves behind, uuids and stamps aside.
  ghost predicate AlikeFor(w1: World, born1: seq<Key>, w2: World, born2: seq<Key>, m: nat, base: Base) {
    && m < |w1.requests| && m < |w2.requests| && w1.requests[m].ops == w2.requests[m].ops
    && (forall key :: KeyTaken(w1.rows, key) <==> KeyTaken(w2.rows, key))
    && Published(w1, base, born1) == Published(w2, base, born2)
    && Requeued(w1, base) == Requeued(w2, base) && Recorded(w1, base) == Recorded(w2, base)
  }

  // Every item of the batch has settled, with the outcome its own faults prescribe.
  predicate SettledAs(b: Batch, w: World, m: nat)
    requires WellFormed(b)
  {
    && m < |w.requests| && |w.requests[m].ops| == |b.keys|
    && forall i :: 0 <= i < |b.keys| ==> w.requests[m].ops[i] == Settled(FinalOutcome(b, i))
  }

  ghost predicate Completes(b: Batch, schedule: seq<nat>)
    requires WellFormed(b)
  {
    IsSchedule(b, FanOut.Start(b), schedule) && AllFinished(Outcome(b, FanOut.Start(b), schedule))
  }

  // A run in which nothing moves but the handlers of message m's items.
  ghost predicate OnlyTheBatch(w: World, events: seq<Event>, w': World, m: nat) {
    Reaches(w, events, w') && forall e :: e in events ==> IsItemEvent(e) && e.m == m
  }

  /** From any reachable state, for a batch of distinct keys and fixed faults: however its handlers interleave, they
      take the pipeline through a run in which nobody else moves, and any two complete interleavings end alike: the
      same outcomes in payload order, the same keys in the table, and for the same keys a message published, an
      item requeued, a record written. */
  lemma SchedulesEndAlike(b: Batch, first: seq<nat>, second: seq<nat>, w: World, m: nat)
      returns (events1: seq<Event>, w1: World, born1: seq<Key>, events2: seq<Event>, w2: World, born2: seq<Key>)
    requires Inv(w) && Fresh(b, w, m) && Distinct(b) && Completes(b, first) && Completes(b, second)
    ensures OnlyTheBatch(w, events1, w1, m) && T.Registers(born1, w1)
    ensures OnlyTheBatch(w, events2, w2, m) && T.Registers(born2, w2)
    ensures AlikeFor(w1, born1, w2, born2, m, BaseOf(w)) && SettledAs(b, w1, m)
  {
    StartMirrors(b, w, m);
    ScheduleIndependent(b, first, second);
    var s := FanOut.Start(b);
    events1, w1, born1 := ScheduleIsARun(b, s, first, w, m, BaseOf(w), Born(w));
    events2, w2, born2 := ScheduleIsARun(b, s, second, w, m, BaseOf(w), Born(w));
    MirrorsOfOneState(b, Outcome(b, s, first), Outcome(b, s, second), w1, born1, w2, born2, m, BaseOf(w));
  }

  lemma MirrorsOfOneState(b: Batch, s: State, t: State, w1: World, born1: seq<Key>, w2: World, born2: seq<Key>,
        m: nat, base: Base)
    requires Mirrors(b, s, w1, m, base, born1) && Mirrors(b, t, w2, m, base, born2)
    requires s.table == t.table && s.published == t.published && s.requeued == t.requeued
    requires s.logged == t.logged && s.pcs == t.pcs
    requires forall i :: 0 <= i < |b.keys| ==> s.pcs[i] == Finished(FinalOutcome(b, i))
    ensures AlikeFor(w1, born1, w2, born2, m, base) && SettledAs(b, w1, m)
  {
    forall i | 0 <= i < |b.keys| ensures w1.requests[m].ops[i] == w2.requests[m].ops[i] == Settled(FinalOutcome(b, i)) {
      assert OpAt(s.pcs[i], w1, w1.requests[m].ops[i]) && OpAt(t.pcs[i], w2, w2.requests[m].ops[i]);
    }
    forall key ensures KeyTaken(w1.rows, key) <==> KeyTaken(w2.rows, key) {
      KeysAreTaken(w1.rows, key);
      KeysAreTaken(w2.rows, key);
    }
  }
}
