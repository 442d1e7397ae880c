/** One consumed batch fanned out under a semaphore: item handlers interleave at their awaits. */
module FanOut {
  import opened Models
  import opened Protocol
  import opened Services
  import opened Sums
  import Repository

  // Where one guarded handler stands.
  datatype Pc = Queued | Acquired | RowIn | Undoing | Unpublished | Finished(outcome: ItemOutcome)

  // A batch: key, validity and fault oracle per item, the keys the table already holds, and which of the two
  // handlers the envelope's retry selects.
  datatype Batch = Batch(
    keys: seq<Key>, valid: seq<bool>, faults: seq<ItemFaults>, taken: set<Key>, permits: nat, escalating: bool)

  // Rows by key, so uuids do not show; messages, requeues and log records by item index.
  datatype State = State(pcs: seq<Pc>, table: set<Key>, permits: nat, published: set<nat>, requeued: set<nat>,
      logged: set<nat>)

  predicate WellFormed(b: Batch) {
    |b.keys| == |b.valid| == |b.faults|
  }

  function Start(b: Batch): State
    requires WellFormed(b)
  {
    State(seq(|b.keys|, _ => Queued), b.taken, b.permits, {}, {}, {})
  }

  predicate Of(b: Batch, s: State) {
    WellFormed(b) && |s.pcs| == |b.keys|
  }

  // Handlers block only on the semaphore.
  predicate CanMove(b: Batch, s: State, i: nat) {
    Of(b, s) && i < |s.pcs| && !s.pcs[i].Finished? && (s.pcs[i].Queued? ==> s.permits > 0)
  }

  function Put(s: State, i: nat, pc: Pc): State
    requires i < |s.pcs|
  {
    s.(pcs := s.pcs[i := pc])
  }

  function Release(s: State): State {
    s.(permits := s.permits + 1)
  }

  // Reject, or escalate, or insert and go on to publish.
  function Insert(b: Batch, s: State, i: nat): State
    requires CanMove(b, s, i)
  {
    if !b.valid[i] then Release(Put(s, i, Finished(INVALID))).(logged := s.logged + {i})
    else if b.faults[i].writeFails then
      (if b.escalating then Release(Put(s, i, Finished(LOGGED))).(logged := s.logged + {i}) else Put(s, i, Unpublished))
    else if b.keys[i] in s.table then Release(Put(s, i, Finished(DUPLICATE)))
    else
      var s1 := if b.escalating then Release(Put(s, i, Finished(ESCALATED))) else Put(s, i, RowIn);
      s1.(table := s.table + {b.keys[i]})
  }

  function PublishRow(b: Batch, s: State, i: nat): State
    requires CanMove(b, s, i)
  {
    var f := b.faults[i];
    var s1 := if !f.buildFails && f.publish.Reached() then s.(published := s.published + {i}) else s;
    if f.buildFails || f.publish.Raises() then Put(s1, i, Undoing) else Release(Put(s1, i, Finished(PUBLISHED)))
  }

  function Undo(b: Batch, s: State, i: nat): State
    requires CanMove(b, s, i)
  {
    if b.faults[i].deleteOk then Put(s, i, Unpublished).(table := s.table - {b.keys[i]})
    else Put(s, i, Unpublished).(logged := s.logged + {i})
  }

  function RequeueOne(b: Batch, s: State, i: nat): State
    requires CanMove(b, s, i)
  {
    var f := b.faults[i];
    var s1 := if f.requeue.Reached() then s.(requeued := s.requeued + {i}) else s;
    if f.requeue.Raises() then Release(Put(s1, i, Finished(LOGGED))).(logged := s1.logged + {i})
    else Release(Put(s1, i, Finished(REQUEUED)))
  }

  // The next await of handler i.
  function Move(b: Batch, s: State, i: nat): State
    requires CanMove(b, s, i)
  {
    match s.pcs[i]
    case Queued => Put(s, i, Acquired).(permits := s.permits - 1)
    case Acquired => Insert(b, s, i)
    case RowIn => PublishRow(b, s, i)
    case Undoing => Undo(b, s, i)
    case Unpublished => RequeueOne(b, s, i)
    case Finished(_) => s
  }

  ghost predicate IsSchedule(b: Batch, s: State, schedule: seq<nat>)
    decreases |schedule|
  {
    |schedule| == 0 || (CanMove(b, s, schedule[0]) && IsSchedule(b, Move(b, s, schedule[0]), schedule[1..]))
  }

  ghost function Outcome(b: Batch, s: State, schedule: seq<nat>): State
    requires IsSchedule(b, s, schedule)
    decreases |schedule|
  {
    if |schedule| == 0 then s else Outcome(b, Move(b, s, schedule[0]), schedule[1..])
  }

  predicate AllFinished(s: State) {
    forall i :: 0 <= i < |s.pcs| ==> s.pcs[i].Finished?
  }

  // ---------------------------------------------------------------- what item i comes to on its own

  predicate Inserts(b: Batch, i: nat)
    requires WellFormed(b) && i < |b.keys|
  {
    b.valid[i] && !b.faults[i].writeFails && b.keys[i] !in b.taken
  }

  predicate Compensates(b: Batch, i: nat)
    requires WellFormed(b) && i < |b.keys|
  {
    Inserts(b, i) && !b.escalating && (b.faults[i].buildFails || b.faults[i].publish.Raises())
  }

  predicate Requeues(b: Batch, i: nat)
    requires WellFormed(b) && i < |b.keys|
  {
    b.valid[i] && !b.escalating && (b.faults[i].writeFails || Compensates(b, i))
  }

  function FinalOutcome(b: Batch, i: nat): ItemOutcome
    requires WellFormed(b) && i < |b.keys|
  {
    var f := b.faults[i];
    if !b.valid[i] then INVALID
    else if Requeues(b, i) then (if f.requeue.Raises() then LOGGED else REQUEUED)
    else if f.writeFails then LOGGED
    else if b.keys[i] in b.taken then DUPLICATE
    else if b.escalating then ESCALATED else PUBLISHED
  }

  /** The fanned-out handler is the publisher's own, on either side of the retry ceiling: same outcome on the same
      table. */
  lemma HandlerIsTheItemHandler(b: Batch, i: nat, w: World, m: nat, j: nat)
    requires WellFormed(b) && i < |b.keys| && Unstarted(w, m, j)
    requires ItemAt(w, m, j).valid == b.valid[i] && ItemAt(w, m, j).key == b.keys[i]
    requires b.escalating <==> w.requests[m].retry > MAX_RETRY
    requires b.keys[i] in b.taken <==> Repository.KeyTaken(w.rows, b.keys[i])
    ensures FinalOutcome(b, i) == ItemResult(w, m, j, b.faults[i])
  {
  }

  // The row of item i is in the table when its handler is at `pc`.
  predicate RowThere(b: Batch, i: nat, pc: Pc)
    requires WellFormed(b) && i < |b.keys|
  {
    b.keys[i] in b.taken ||
    match pc
    case Queued => false
    case Acquired => false
    case RowIn => true
    case Undoing => true
    case _ => Inserts(b, i) && !(Compensates(b, i) && b.faults[i].deleteOk)
  }

  predicate PublishedBy(b: Batch, i: nat, pc: Pc)
    requires WellFormed(b) && i < |b.keys|
  {
    && (pc.Undoing? || pc.Unpublished? || pc.Finished?) && Inserts(b, i)
    && !b.escalating && !b.faults[i].buildFails && b.faults[i].publish.Reached()
  }

  predicate RequeuedBy(b: Batch, i: nat, pc: Pc)
    requires WellFormed(b) && i < |b.keys|
  {
    pc.Finished? && Requeues(b, i) && b.faults[i].requeue.Reached()
  }

  predicate LoggedBy(b: Batch, i: nat, pc: Pc)
    requires WellFormed(b) && i < |b.keys|
  {
    || ((pc.Unpublished? || pc.Finished?) && Compensates(b, i) && !b.faults[i].deleteOk)
    || (pc.Finished? && Requeues(b, i) && b.faults[i].requeue.Raises())
    || (pc.Finished? && (!b.valid[i] || (b.escalating && b.faults[i].writeFails)))
  }

  predicate PcPossible(b: Batch, i: nat, pc: Pc)
    requires WellFormed(b) && i < |b.keys|
  {
    match pc
    case RowIn => Inserts(b, i) && !b.escalating
    case Undoing => Compensates(b, i)
    case Unpublished => Requeues(b, i)
    case Finished(outcome) => outcome == FinalOutcome(b, i)
    case _ => true
  }

  ghost predicate Distinct(b: Batch) {
    forall i, j :: 0 <= i < j < |b.keys| ==> b.keys[i] != b.keys[j]
  }

  // Item i's share of the state depends on its own pc and nothing else.
  predicate ItemAgrees(b: Batch, s: State, i: nat)
    requires Of(b, s) && i < |s.pcs|
  {
    && PcPossible(b, i, s.pcs[i])
    && (b.keys[i] in s.table <==> RowThere(b, i, s.pcs[i]))
    && (i in s.published <==> PublishedBy(b, i, s.pcs[i]))
    && (i in s.requeued <==> RequeuedBy(b, i, s.pcs[i]))
    && (i in s.logged <==> LoggedBy(b, i, s.pcs[i]))
  }

  predicate OnlyBatch(b: Batch, s: State) {
    && b.taken <= s.table
    && (forall k :: k in s.table ==> k in b.taken || k in b.keys)
    && (forall i :: i in s.published ==> i < |s.pcs|)
    && (forall i :: i in s.requeued ==> i < |s.pcs|)
    && (forall i :: i in s.logged ==> i < |s.pcs|)
  }

  ghost predicate Independent(b: Batch, s: State) {
    Of(b, s) && OnlyBatch(b, s) && forall i: nat :: i < |s.pcs| ==> ItemAgrees(b, s, i)
  }

  lemma OthersUntouched(b: Batch, s: State, i: nat, j: nat)
    requires Distinct(b) && CanMove(b, s, i) && j < |s.pcs| && j != i && ItemAgrees(b, s, j)
    ensures ItemAgrees(b, Move(b, s, i), j)
  {
    assert b.keys[i] != b.keys[j];
  }

  lemma MoverAgrees(b: Batch, s: State, i: nat)
    requires CanMove(b, s, i) && ItemAgrees(b, s, i) && b.taken <= s.table
    ensures ItemAgrees(b, Move(b, s, i), i)
  {
  }

  lemma IndependentStep(b: Batch, s: State, i: nat)
    requires Distinct(b) && Independent(b, s) && CanMove(b, s, i)
    ensures Independent(b, Move(b, s, i))
  {
    assert ItemAgrees(b, s, i);
    MoverAgrees(b, s, i);
    forall j: nat | j < |s.pcs| ensures ItemAgrees(b, Move(b, s, i), j) {
      if j != i {
        OthersUntouched(b, s, i, j);
      }
    }
  }

  lemma {:induction false} IndependentAlways(b: Batch, s: State, schedule: seq<nat>)
    requires Distinct(b) && Independent(b, s) && IsSchedule(b, s, schedule)
    ensures Independent(b, Outcome(b, s, schedule))
    decreases |schedule|
  {
    if |schedule| > 0 {
      IndependentStep(b, s, schedule[0]);
      IndependentAlways(b, Move(b, s, schedule[0]), schedule[1..]);
    }
  }

  lemma FinishedStatesAgree(b: Batch, s: State, t: State)
    requires Distinct(b) && Independent(b, s) && Independent(b, t) && AllFinished(s) && AllFinished(t)
    ensures s.table == t.table && s.published == t.published && s.requeued == t.requeued && s.logged == t.logged
      && s.pcs == t.pcs
  {
    forall i: nat | i < |s.pcs|
      ensures s.pcs[i] == t.pcs[i]
      ensures (i in s.published <==> i in t.published) && (i in s.requeued <==> i in t.requeued)
        && (i in s.logged <==> i in t.logged)
    {
      assert ItemAgrees(b, s, i) && ItemAgrees(b, t, i);
    }
    assert s.pcs == t.pcs;
    forall k ensures k in s.table <==> k in t.table {
      if k !in b.taken && k in b.keys {
        var i: nat :| i < |b.keys| && b.keys[i] == k;
        assert ItemAgrees(b, s, i) && ItemAgrees(b, t, i);
      }
    }
    assert s.table == t.table;
    assert s.published == t.published;
    assert s.requeued == t.requeued;
    assert s.logged == t.logged;
  }

  /** For pairwise-distinct keys and fixed faults, any two complete schedules, the sequential one among
      them, leave the same rows, messages, requeues, log records and payload-ordered outcomes. */
  lemma ScheduleIndependent(b: Batch, first: seq<nat>, second: seq<nat>)
    requires WellFormed(b) && Distinct(b)
    requires IsSchedule(b, Start(b), first) && AllFinished(Outcome(b, Start(b), first))
    requires IsSchedule(b, Start(b), second) && AllFinished(Outcome(b, Start(b), second))
    ensures var s, t := Outcome(b, Start(b), first), Outcome(b, Start(b), second);
      && s.table == t.table && s.published == t.published && s.requeued == t.requeued && s.logged == t.logged
      && s.pcs == t.pcs
    ensures |Outcome(b, Start(b), first).pcs| == |b.keys|
    ensures forall i :: 0 <= i < |b.keys| ==> Outcome(b, Start(b), first).pcs[i] == Finished(FinalOutcome(b, i))
  {
    forall i: nat | i < |b.keys| ensures ItemAgrees(b, Start(b), i) {
    }
    IndependentAlways(b, Start(b), first);
    IndependentAlways(b, Start(b), second);
    FinishedStatesAgree(b, Outcome(b, Start(b), first), Outcome(b, Start(b), second));
    forall i: nat | i < |b.keys| ensures Outcome(b, Start(b), first).pcs[i] == Finished(FinalOutcome(b, i)) {
      assert ItemAgrees(b, Outcome(b, Start(b), first), i);
    }
  }

  // ---------------------------------------------------------------- repeated keys, no faults

  predicate FaultFree(b: Batch) {
    WellFormed(b) && forall i :: 0 <= i < |b.faults| ==>
      !b.faults[i].writeFails && !b.faults[i].buildFails && b.faults[i].publish.Delivered?
  }

  predicate Owns(b: Batch, s: State, i: nat, k: Key) {
    Of(b, s) && i < |s.pcs| && b.keys[i] == k && (s.pcs[i].RowIn? || s.pcs[i] == Finished(Winner(b)))
  }

  // The outcome of the one item that gets its row in.
  function Winner(b: Batch): ItemOutcome { if b.escalating then ESCALATED else PUBLISHED }

  // A new key is in the table exactly when one item owns it, and never more than one does.
  ghost predicate OneOwner(b: Batch, s: State) {
    && Of(b, s) && b.taken <= s.table
    && (forall k :: k in s.table && k !in b.taken ==> exists i: nat :: Owns(b, s, i, k))
    && (forall i: nat, k :: Owns(b, s, i, k) ==> k in s.table && k !in b.taken)
    && (forall i: nat, j: nat, k :: Owns(b, s, i, k) && Owns(b, s, j, k) ==> i == j)
    && (forall i: nat :: i < |s.pcs| ==>
          match s.pcs[i]
          case Undoing => false
          case Unpublished => false
          case RowIn => b.valid[i] && !b.escalating
          case Finished(outcome) =>
            if b.valid[i] then (outcome == Winner(b) || outcome.DUPLICATE?) && b.keys[i] in s.table
              else outcome.INVALID?
          case _ => true)
  }

  lemma OneOwnerStep(b: Batch, s: State, i: nat)
    requires FaultFree(b) && OneOwner(b, s) && CanMove(b, s, i)
    ensures OneOwner(b, Move(b, s, i))
  {
    var t := Move(b, s, i);
    assert s.pcs[i].RowIn? ==> Owns(b, s, i, b.keys[i]);
    forall k | k in t.table && k !in b.taken ensures exists j: nat :: Owns(b, t, j, k) {
      if k in s.table {
        var j: nat :| Owns(b, s, j, k);
        assert Owns(b, t, j, k);
      } else {
        assert Owns(b, t, i, k);
      }
    }
    forall j: nat, k | Owns(b, t, j, k) ensures k in t.table && k !in b.taken {
      OwnerMoves(b, s, i, j, k);
    }
    forall j: nat, j': nat, k | Owns(b, t, j, k) && Owns(b, t, j', k) ensures j == j' {
      OwnerMoves(b, s, i, j, k);
      OwnerMoves(b, s, i, j', k);
    }
  }

  lemma OwnerMoves(b: Batch, s: State, i: nat, j: nat, k: Key)
    requires FaultFree(b) && OneOwner(b, s) && CanMove(b, s, i) && Owns(b, Move(b, s, i), j, k)
    ensures Owns(b, s, j, k) || (j == i && k !in s.table)
    ensures k in Move(b, s, i).table
  {
    if Owns(b, s, j, k) {
      assert k in s.table;
    }
  }

  lemma {:induction false} OneOwnerAlways(b: Batch, s: State, schedule: seq<nat>)
    requires FaultFree(b) && OneOwner(b, s) && IsSchedule(b, s, schedule)
    ensures OneOwner(b, Outcome(b, s, schedule))
    decreases |schedule|
  {
    if |schedule| > 0 {
      OneOwnerStep(b, s, schedule[0]);
      OneOwnerAlways(b, Move(b, s, schedule[0]), schedule[1..]);
    }
  }

  /** Fault-free, with keys repeated freely and invalid items among them: under every schedule each new key is
      PUBLISHED (past the ceiling, ESCALATED) by exactly one of its valid items, every other valid item is a
      DUPLICATE, and every invalid one INVALID. */
  lemma ExactlyOneWinsPerNewKey(b: Batch, schedule: seq<nat>, k: Key)
    requires FaultFree(b) && IsSchedule(b, Start(b), schedule) && AllFinished(Outcome(b, Start(b), schedule))
    requires exists i :: 0 <= i < |b.keys| && b.keys[i] == k && b.valid[i]
    ensures var s := Outcome(b, Start(b), schedule);
      && |s.pcs| == |b.keys|
      && (forall i :: 0 <= i < |s.pcs| ==>
            if b.valid[i] then s.pcs[i] == Finished(Winner(b)) || s.pcs[i] == Finished(DUPLICATE)
              else s.pcs[i] == Finished(INVALID))
      && (k !in b.taken <==> exists i :: 0 <= i < |s.pcs| && b.keys[i] == k && s.pcs[i] == Finished(Winner(b)))
      && (forall i, j :: (0 <= i < |s.pcs| && 0 <= j < |s.pcs| && b.keys[i] == b.keys[j]
                          && s.pcs[i] == Finished(Winner(b)) && s.pcs[j] == Finished(Winner(b))) ==> i == j)
  {
    OneOwnerAlways(b, Start(b), schedule);
    var s := Outcome(b, Start(b), schedule);
    var i :| 0 <= i < |b.keys| && b.keys[i] == k && b.valid[i];
    assert s.pcs[i].Finished? && k in s.table;
    if k !in b.taken {
      var j: nat :| Owns(b, s, j, k);
      assert s.pcs[j] == Finished(Winner(b));
    }
    forall i, j | 0 <= i < |s.pcs| && 0 <= j < |s.pcs| && b.keys[i] == b.keys[j]
      && s.pcs[i] == Finished(Winner(b)) && s.pcs[j] == Finished(Winner(b)) ensures i == j
    {
      assert Owns(b, s, i, b.keys[i]) && Owns(b, s, j, b.keys[i]);
    }
    forall i | 0 <= i < |s.pcs| && b.keys[i] == k && s.pcs[i] == Finished(Winner(b)) ensures k !in b.taken {
      assert Owns(b, s, i, k);
    }
  }

  // ---------------------------------------------------------------- the semaphore

  // A handler holds its permit until it settles, and a connection while it inserts, publishes or undoes.
  function HoldsPermit(): Pc -> nat {
    (pc: Pc) => if pc.Queued? || pc.Finished? then 0 else 1
  }

  function HoldsConnection(): Pc -> nat {
    (pc: Pc) => if pc.Acquired? || pc.RowIn? || pc.Undoing? then 1 else 0
  }

  predicate PermitsAddUp(b: Batch, s: State) {
    s.permits + Sum(HoldsPermit(), s.pcs) == b.permits
  }

  lemma PermitsStep(b: Batch, s: State, i: nat)
    requires PermitsAddUp(b, s) && CanMove(b, s, i)
    ensures PermitsAddUp(b, Move(b, s, i))
  {
    SumUpdate(HoldsPermit(), s.pcs, i, Move(b, s, i).pcs[i]);
  }

  lemma {:induction false} PermitsAlways(b: Batch, s: State, schedule: seq<nat>)
    requires PermitsAddUp(b, s) && IsSchedule(b, s, schedule)
    ensures PermitsAddUp(b, Outcome(b, s, schedule))
    decreases |schedule|
  {
    if |schedule| > 0 {
      PermitsStep(b, s, schedule[0]);
      PermitsAlways(b, Move(b, s, schedule[0]), schedule[1..]);
    }
  }

  /** Connections held never exceed the semaphore's limit, under any schedule; and when the batch is
      settled every permit is back. */
  lemma ConnectionsNeverExceedConcurrency(b: Batch, schedule: seq<nat>)
    requires WellFormed(b) && IsSchedule(b, Start(b), schedule)
    ensures Sum(HoldsConnection(), Outcome(b, Start(b), schedule).pcs) <= b.permits
    ensures AllFinished(Outcome(b, Start(b), schedule)) ==> Outcome(b, Start(b), schedule).permits == b.permits
  {
    SumConstant(HoldsPermit(), Start(b).pcs, 0);
    PermitsAlways(b, Start(b), schedule);
    var s := Outcome(b, Start(b), schedule);
    SumBelow(HoldsConnection(), HoldsPermit(), s.pcs);
    if AllFinished(s) {
      SumConstant(HoldsPermit(), s.pcs, 0);
    }
  }

  // After this schedule, if it is one, every item has settled or some handler can move.
  ghost predicate GoesOn(b: Batch, schedule: seq<nat>)
    requires WellFormed(b)
  {
    IsSchedule(b, Start(b), schedule) ==>
      AllFinished(Outcome(b, Start(b), schedule)) || exists i: nat :: CanMove(b, Outcome(b, Start(b), schedule), i)
  }

  /** The semaphore never blocks a batch for good exactly when it grants a permit (or there is nothing to do). */
  lemma NeverBlocksIffAPermitExists(b: Batch)
    requires WellFormed(b)
    ensures b.permits > 0 || |b.keys| == 0 <==> forall schedule: seq<nat> :: GoesOn(b, schedule)
  {
    if b.permits > 0 || |b.keys| == 0 {
      forall schedule: seq<nat> ensures GoesOn(b, schedule) {
        if IsSchedule(b, Start(b), schedule) && !AllFinished(Outcome(b, Start(b), schedule)) {
          SumConstant(HoldsPermit(), Start(b).pcs, 0);
          PermitsAlways(b, Start(b), schedule);
          ShapeAlways(b, Start(b), schedule);
          SomeoneCanMove(b, Outcome(b, Start(b), schedule));
        }
      }
    } else {
      var none: seq<nat> := [];
      assert !Start(b).pcs[0].Finished?;
      assert forall i: nat :: !CanMove(b, Start(b), i);
      assert IsSchedule(b, Start(b), none) && Outcome(b, Start(b), none) == Start(b);
      assert !GoesOn(b, none);
    }
  }

  lemma {:induction false} ShapeAlways(b: Batch, s: State, schedule: seq<nat>)
    requires Of(b, s) && IsSchedule(b, s, schedule)
    ensures Of(b, Outcome(b, s, schedule))
    decreases |schedule|
  {
    if |schedule| > 0 {
      ShapeAlways(b, Move(b, s, schedule[0]), schedule[1..]);
    }
  }

  lemma SomeoneCanMove(b: Batch, s: State)
    requires Of(b, s) && PermitsAddUp(b, s) && !AllFinished(s) && b.permits > 0
    ensures exists i: nat :: CanMove(b, s, i)
  {
    var i: nat :| i < |s.pcs| && !s.pcs[i].Finished?;
    if j: nat :| j < |s.pcs| && HoldsPermit()(s.pcs[j]) != 0 {
      assert CanMove(b, s, j);
    } else {
      SumConstant(HoldsPermit(), s.pcs, 0);
      assert CanMove(b, s, i);
    }
  }

  // Awaits handler i has left; each move uses one up, so every item runs once and every schedule ends.
  function AwaitsLeft(): Pc -> nat {
    (pc: Pc) =>
      match pc
      case Queued => 5
      case Acquired => 4
      case RowIn => 3
      case Undoing => 2
      case Unpublished => 1
      case Finished(_) => 0
  }

  lemma MoveUsesAnAwait(b: Batch, s: State, i: nat)
    requires CanMove(b, s, i)
    ensures Of(b, Move(b, s, i)) && Sum(AwaitsLeft(), Move(b, s, i).pcs) < Sum(AwaitsLeft(), s.pcs)
  {
    var t := Move(b, s, i);
    assert t.pcs == s.pcs[i := t.pcs[i]];
    SumUpdate(AwaitsLeft(), s.pcs, i, t.pcs[i]);
  }

  lemma {:induction false} SchedulesAreFinite(b: Batch, s: State, schedule: seq<nat>)
    requires Of(b, s) && IsSchedule(b, s, schedule)
    ensures |schedule| + Sum(AwaitsLeft(), Outcome(b, s, schedule).pcs) <= Sum(AwaitsLeft(), s.pcs)
    decreases |schedule|
  {
    if |schedule| > 0 {
      MoveUsesAnAwait(b, s, schedule[0]);
      SchedulesAreFinite(b, Move(b, s, schedule[0]), schedule[1..]);
    }
  }

  // ---------------------------------------------------------------- what a settled batch leaves, item by item

  /** After any complete schedule of distinct keys, for each item by its own faults: whether its key is in the table,
      whether its message is out, whether it was requeued, and whether a record was written. */
  lemma EachItemLeaves(b: Batch, schedule: seq<nat>, i: nat)
    requires WellFormed(b) && Distinct(b) && i < |b.keys|
    requires IsSchedule(b, Start(b), schedule) && AllFinished(Outcome(b, Start(b), schedule))
    ensures var s, f := Outcome(b, Start(b), schedule), b.faults[i];
      var inserted := b.valid[i] && !f.writeFails && b.keys[i] !in b.taken;
      var undone := inserted && !b.escalating && (f.buildFails || !f.publish.Delivered?);
      var again := b.valid[i] && !b.escalating && (f.writeFails || undone);
      && (b.keys[i] in s.table <==> b.keys[i] in b.taken || (inserted && !(undone && f.deleteOk)))
      && (i in s.published <==> inserted && !b.escalating && !f.buildFails && !f.publish.Lost?)
      && (i in s.requeued <==> again && !f.requeue.Lost?)
      && (i in s.logged <==> !b.valid[i] || (b.escalating && f.writeFails) || (undone && !f.deleteOk)
                             || (again && !f.requeue.Delivered?))
  {
    forall j: nat | j < |b.keys| ensures ItemAgrees(b, Start(b), j) {
    }
    IndependentAlways(b, Start(b), schedule);
    assert ItemAgrees(b, Outcome(b, Start(b), schedule), i);
  }

  /** The connections and the permits, counted: handlers inserting, publishing or undoing are never more than the
      limit. */
  lemma ConnectionsAreCounted(b: Batch, schedule: seq<nat>)
    requires WellFormed(b) && IsSchedule(b, Start(b), schedule)
    ensures var pcs := Outcome(b, Start(b), schedule).pcs;
      |set i | 0 <= i < |pcs| && (pcs[i].Acquired? || pcs[i].RowIn? || pcs[i].Undoing?)| <= b.permits
  {
    var pcs := Outcome(b, Start(b), schedule).pcs;
    ConnectionsNeverExceedConcurrency(b, schedule);
    SumCounts(HoldsConnection(), pcs);
    assert Ones(HoldsConnection(), pcs)
        == (set i | 0 <= i < |pcs| && (pcs[i].Acquired? || pcs[i].RowIn? || pcs[i].Undoing?));
  }
}
