/** The two-topic pipeline as one transition system.

    An event is one await of the code: a commit, a publish verdict, a read, an offset commit,
    a crash. Every fault is chosen by the event, so `Next` is a function of state and event. */
module Protocol {
  import opened Models
  import opened Repository

  // ---------------------------------------------------------------- state

  datatype ItemOutcome = PUBLISHED | DUPLICATE | REQUEUED | ESCALATED | LOGGED | INVALID

  // Where one item's handler stands. `Inserted` holds a committed row whose message is not out yet,
  // `Compensating` one whose publish failed and whose delete is still to come.
  datatype Op =
    | Todo
    | Inserted(uuid: nat, since: nat)
    | Compensating(uuid: nat, stage: Stage, cause: Cause)
    | Requeueing(stage: Stage, cause: Cause)
    | Settled(outcome: ItemOutcome)
  {
    predicate HoldsRow() { Inserted? || Compensating? }
  }

  // Waiting covers both "never consumed" and "consumed, crashed, to be redelivered".
  datatype Phase = Waiting | InHand | Committed

  datatype RequestEntry = RequestEntry(retry: nat, errors: seq<AttemptError>, items: seq<Item>, phase: Phase,
      ops: seq<Op>)

  datatype MessageOutcome = RESOLVED | STALE | GHOST | MSG_REQUEUED | MSG_ESCALATED | MSG_LOGGED

  datatype AgentPc =
    | Start
    | Deciding
    | EscalatingFailure(cause: Cause)
    | Republishing(since: nat, cause: Cause)
    | Handled(outcome: MessageOutcome)

  datatype ReimbEntry = ReimbEntry(uuid: nat, retry: nat, publishedAt: nat, errors: seq<AttemptError>, phase: Phase,
      pc: AgentPc)

  datatype FailureEvent =
    InvalidItem | ItemFailed | ItemEscalationFailed | CompensatingDeleteFailed |
    ResolveFailed | DecisionFailed | RowEscalationFailed

  // One record of the failure log, with whichever of the two identities it carries.
  datatype Failure = Failure(event: FailureEvent, item: Option<Item>, uuid: Option<nat>)

  datatype Transition = Transition(from: Status, to: Status)

  datatype World = World(
    rows: seq<Slot>,
    audit: seq<Review>,
    transitions: seq<Transition>,     // every increment of the status-transition counter
    escalatedInserts: nat,            // rows inserted directly at human-review
    requests: seq<RequestEntry>,
    reimbs: seq<ReimbEntry>,
    failures: seq<Failure>,
    accepted: set<Key>,               // keys of batches the API answered 201 for
    submitted: nat,                   // items the API put on the topic
    clock: nat)

  predicate Init(w: World) {
    w == World([], [], [], 0, [], [], [], {}, 0, 0)
  }

  // ---------------------------------------------------------------- events

  // What `publish` can mean: acknowledged, lost, or delivered although the caller saw PublishFailed.
  datatype Delivery = Delivered | Lost | DeliveredButReported {
    predicate Reached() { !Lost? }
    predicate Raises() { !Delivered? }
  }

  datatype Decision = Decision(status: DecisionStatus, why: Why, receipts: Receipts)

  datatype Event =
    // API
    | Post(items: seq<Item>, delivery: Delivery)
    | Foreign(retry: nat, errors: seq<AttemptError>, items: seq<Item>)
    // publisher
    | Take(m: nat)
    | RejectItem(m: nat, i: nat)
    | InsertPending(m: nat, i: nat)
    | DropDuplicate(m: nat, i: nat)
    | InsertFails(m: nat, i: nat, cause: Cause)
    | PublishItem(m: nat, i: nat, delivery: Delivery, stamp: nat, cause: Cause)
    | BuildFails(m: nat, i: nat, cause: Cause)
    | Delete(m: nat, i: nat, ok: bool)
    | RequeueItem(m: nat, i: nat, delivery: Delivery)
    | EscalateItem(m: nat, i: nat, ok: bool)
    | Commit(m: nat)
    | Crash(m: nat)
    // agent
    | AgentTake(n: nat)
    | OverCeiling(n: nat, ok: bool)
    | ReadFails(n: nat, cause: Cause)
    | ReadRow(n: nat)
    | Decide(n: nat, decision: Decision)
    | DecideFails(n: nat, cause: Cause)
    | EscalateFailure(n: nat, ok: bool)
    | Republish(n: nat, delivery: Delivery, stamp: nat)
    | AgentCommit(n: nat)
    | AgentCrash(n: nat)
    // reviewer: one committed approve/reject transaction, counted unless the row's re-read fails
    | ReviewRow(u: nat, approved: bool, text: string, receipts: Receipts, counted: bool)

  // An agent's UPDATE of its message's row, if the row is there.
  predicate IsAgentWrite(e: Event) {
    e.Decide? || ((e.OverCeiling? || e.EscalateFailure?) && e.ok)
  }

  // ---------------------------------------------------------------- guards

  predicate OpIs(w: World, m: nat, i: nat) {
    && m < |w.requests| && w.requests[m].phase.InHand?
    && i < |w.requests[m].ops| == |w.requests[m].items|
  }

  predicate Unstarted(w: World, m: nat, i: nat) {
    OpIs(w, m, i) && w.requests[m].ops[i].Todo?
  }

  function ItemAt(w: World, m: nat, i: nat): Item
    requires OpIs(w, m, i)
  {
    w.requests[m].items[i]
  }

  predicate PcIs(w: World, n: nat) {
    n < |w.reimbs| && w.reimbs[n].phase.InHand?
  }

  predicate AllSettled(ops: seq<Op>) {
    forall i :: 0 <= i < |ops| ==> ops[i].Settled?
  }

  ghost predicate Enabled(w: World, e: Event) {
    match e
    case Post(items, _) => 0 < |items| <= MAX_BATCH_ITEMS && forall i :: 0 <= i < |items| ==> items[i].valid
    case Foreign(_, _, _) => true
    case Take(m) => m < |w.requests| && w.requests[m].phase.Waiting?
    case RejectItem(m, i) => Unstarted(w, m, i) && !ItemAt(w, m, i).valid
    case InsertPending(m, i) =>
      Unstarted(w, m, i) && ItemAt(w, m, i).valid && w.requests[m].retry <= MAX_RETRY
          && !KeyTaken(w.rows, ItemAt(w, m, i).key)
    case DropDuplicate(m, i) => Unstarted(w, m, i) && ItemAt(w, m, i).valid && KeyTaken(w.rows, ItemAt(w, m, i).key)
    case InsertFails(m, i, _) => Unstarted(w, m, i) && ItemAt(w, m, i).valid && w.requests[m].retry <= MAX_RETRY
    case PublishItem(m, i, _, stamp, _) =>
      OpIs(w, m, i) && w.requests[m].ops[i].Inserted? && w.requests[m].ops[i].since <= stamp <= w.clock
    case BuildFails(m, i, _) => OpIs(w, m, i) && w.requests[m].ops[i].Inserted?
    case Delete(m, i, _) => OpIs(w, m, i) && w.requests[m].ops[i].Compensating?
    case RequeueItem(m, i, _) => OpIs(w, m, i) && w.requests[m].ops[i].Requeueing?
    case EscalateItem(m, i, ok) =>
      && Unstarted(w, m, i) && ItemAt(w, m, i).valid && w.requests[m].retry > MAX_RETRY
      && (ok ==> !KeyTaken(w.rows, ItemAt(w, m, i).key))
    case Commit(m) => m < |w.requests| && w.requests[m].phase.InHand? && AllSettled(w.requests[m].ops)
    case Crash(m) => m < |w.requests| && w.requests[m].phase.InHand?
    case AgentTake(n) => n < |w.reimbs| && w.reimbs[n].phase.Waiting?
    case OverCeiling(n, _) => PcIs(w, n) && w.reimbs[n].pc.Start? && w.reimbs[n].retry > MAX_RETRY
    case ReadFails(n, _) => PcIs(w, n) && w.reimbs[n].pc.Start? && w.reimbs[n].retry <= MAX_RETRY
    case ReadRow(n) => PcIs(w, n) && w.reimbs[n].pc.Start? && w.reimbs[n].retry <= MAX_RETRY
    case Decide(n, decision) => PcIs(w, n) && w.reimbs[n].pc.Deciding? && ReceiptsOk(decision.receipts)
    case DecideFails(n, _) => PcIs(w, n) && w.reimbs[n].pc.Deciding?
    case EscalateFailure(n, _) => PcIs(w, n) && w.reimbs[n].pc.EscalatingFailure?
    case Republish(n, _, stamp) =>
      PcIs(w, n) && w.reimbs[n].pc.Republishing? && w.reimbs[n].pc.since <= stamp <= w.clock
    case AgentCommit(n) => PcIs(w, n) && w.reimbs[n].pc.Handled?
    case AgentCrash(n) => PcIs(w, n)
    case ReviewRow(u, approved, _, receipts, _) => Eligible(w.rows, u) && ReviewArgsOk(approved, receipts)
  }

  // ---------------------------------------------------------------- effects

  function Todos(n: nat): (ops: seq<Op>)
    ensures |ops| == n && forall i :: 0 <= i < n ==> ops[i] == Todo
  {
    seq(n, _ => Todo)
  }

  function NewRequest(retry: nat, errors: seq<AttemptError>, items: seq<Item>): RequestEntry {
    RequestEntry(retry, errors, items, Waiting, Todos(|items|))
  }

  function NewReimb(uuid: nat, retry: nat, stamp: nat, errors: seq<AttemptError>): ReimbEntry {
    ReimbEntry(uuid, retry, stamp, errors, Waiting, Start)
  }

  function Keys(items: seq<Item>): set<Key> {
    set i | 0 <= i < |items| :: items[i].key
  }

  function SetPhase(w: World, m: nat, phase: Phase, ops: seq<Op>): World
    requires m < |w.requests|
  {
    w.(requests := w.requests[m := w.requests[m].(phase := phase, ops := ops)])
  }

  function SetOp(w: World, m: nat, i: nat, op: Op): World
    requires OpIs(w, m, i)
  {
    w.(requests := w.requests[m := w.requests[m].(ops := w.requests[m].ops[i := op])])
  }

  function SetPc(w: World, n: nat, phase: Phase, pc: AgentPc): World
    requires n < |w.reimbs|
  {
    w.(reimbs := w.reimbs[n := w.reimbs[n].(phase := phase, pc := pc)])
  }

  function Log(w: World, event: FailureEvent, item: Option<Item>, uuid: Option<nat>): World {
    w.(failures := w.failures + [Failure(event, item, uuid)])
  }

  function AppendRequest(w: World, entry: RequestEntry): World {
    w.(requests := w.requests + [entry])
  }

  function AppendReimb(w: World, entry: ReimbEntry): World {
    w.(reimbs := w.reimbs + [entry])
  }

  function AfterPost(w: World, items: seq<Item>, delivery: Delivery): World {
    var w1 := if delivery.Reached()
        then AppendRequest(w, NewRequest(0, [], items)).(submitted := w.submitted + |items|) else w;
    if delivery.Delivered? then w1.(accepted := w.accepted + Keys(items)) else w1
  }

  function AfterInsert(w: World, m: nat, i: nat): World
    requires OpIs(w, m, i)
  {
    SetOp(w, m, i, Op.Inserted(|w.rows|, w.clock + 1)).(rows := Repository.Inserted(w.rows,
        PendingRow(ItemAt(w, m, i).key, w.clock)))
  }

  function AfterPublish(w: World, m: nat, i: nat, delivery: Delivery, stamp: nat, cause: Cause): World
    requires OpIs(w, m, i) && w.requests[m].ops[i].Inserted?
  {
    var uuid := w.requests[m].ops[i].uuid;
    var w1 := SetOp(w, m, i, if delivery.Raises() then Compensating(uuid, Publish, cause) else Settled(PUBLISHED));
    if delivery.Reached() then AppendReimb(w1, NewReimb(uuid, 0, stamp, w.requests[m].errors)) else w1
  }

  function AfterDelete(w: World, m: nat, i: nat, ok: bool): World
    requires OpIs(w, m, i) && w.requests[m].ops[i].Compensating?
  {
    var op := w.requests[m].ops[i];
    var w1 := SetOp(w, m, i, Requeueing(op.stage, op.cause));
    if ok then w1.(rows := PendingDeleted(w.rows, op.uuid))
    else Log(w1, CompensatingDeleteFailed, Some(ItemAt(w, m, i)), Some(op.uuid))
  }

  function AfterRequeue(w: World, m: nat, i: nat, delivery: Delivery): World
    requires OpIs(w, m, i) && w.requests[m].ops[i].Requeueing?
  {
    var op := w.requests[m].ops[i];
    var item := ItemAt(w, m, i);
    var retried := NewRequest(w.requests[m].retry + 1, Appended(w.requests[m].errors, op.stage, op.cause), [item]);
    var w1 := SetOp(w, m, i, Settled(if delivery.Raises() then LOGGED else REQUEUED));
    var w2 := if delivery.Reached() then AppendRequest(w1, retried) else w1;
    if delivery.Raises() then Log(w2, ItemFailed, Some(item), None) else w2
  }

  function AfterEscalateItem(w: World, m: nat, i: nat, ok: bool): World
    requires OpIs(w, m, i)
  {
    var item := ItemAt(w, m, i);
    if ok then
      SetOp(w, m, i, Settled(ESCALATED)).(
        rows := Repository.Inserted(w.rows,
            HumanReviewRow(item.key, History(RetryCeilingReached, w.requests[m].errors), w.clock)),
        escalatedInserts := w.escalatedInserts + 1)
    else
      Log(SetOp(w, m, i, Settled(LOGGED)), ItemEscalationFailed, Some(item), None)
  }

  // apply_decision: the write, then the counter with its hardcoded "pending", only if a row was hit.
  function ApplyDecision(w: World, uuid: nat, status: DecisionStatus, reason: Reason, receipts: Receipts): World {
    if Exists(w.rows, uuid) then
      w.(rows := Decided(w.rows, uuid, status, reason, receipts, w.clock),
         transitions := w.transitions + [Transition(Pending, status)])
    else w
  }

  // _escalate_row: write failure and ghost both end in the failure log.
  function EscalateRow(w: World, n: nat, ok: bool, header: Header, errors: seq<AttemptError>): World
    requires n < |w.reimbs|
  {
    var uuid := w.reimbs[n].uuid;
    if ok && Exists(w.rows, uuid) then
      SetPc(ApplyDecision(w, uuid, HumanReview, History(header, errors), NO_RECEIPTS), n, InHand,
          Handled(MSG_ESCALATED))
    else
      Log(SetPc(w, n, InHand, Handled(MSG_LOGGED)), RowEscalationFailed, None, Some(uuid))
  }

  function AfterRead(w: World, n: nat): World
    requires n < |w.reimbs|
  {
    var entry := w.reimbs[n];
    SetPc(w, n, InHand,
      if !Exists(w.rows, entry.uuid) then Handled(GHOST)
      else if entry.publishedAt < w.rows[entry.uuid].row.updatedAt then Handled(STALE)
      else Deciding)
  }

  function AfterRepublish(w: World, n: nat, delivery: Delivery, stamp: nat): World
    requires n < |w.reimbs| && w.reimbs[n].pc.Republishing?
  {
    var entry := w.reimbs[n];
    var retried := NewReimb(entry.uuid, entry.retry + 1, stamp, Appended(entry.errors, Resolve, entry.pc.cause));
    var w1 := SetPc(w, n, InHand, Handled(if delivery.Raises() then MSG_LOGGED else MSG_REQUEUED));
    var w2 := if delivery.Reached() then AppendReimb(w1, retried) else w1;
    if delivery.Raises() then Log(w2, ResolveFailed, None, Some(entry.uuid)) else w2
  }

  function AfterReviewRow(w: World, u: nat, approved: bool, text: string, receipts: Receipts, counted: bool): World
    requires Eligible(w.rows, u)
  {
    var to := if approved then HumanApproved else HumanRejected;
    w.(rows := AfterReview(w.rows, u, approved, text, receipts, w.clock),
       audit := w.audit + [Review(u, approved)],
       transitions := w.transitions + if counted then [Transition(w.rows[u].row.status, to)] else [])
  }

  // The state change of one event, before the clock ticks.
  function Effect(w: World, e: Event): World
    requires Enabled(w, e)
  {
    match e
    case Post(items, delivery) => AfterPost(w, items, delivery)
    case Foreign(retry, errors, items) => AppendRequest(w, NewRequest(retry, errors, items))
    case Take(m) => SetPhase(w, m, InHand, w.requests[m].ops)
    case RejectItem(m, i) => Log(SetOp(w, m, i, Settled(INVALID)), InvalidItem, Some(ItemAt(w, m, i)), None)
    case InsertPending(m, i) => AfterInsert(w, m, i)
    case DropDuplicate(m, i) => SetOp(w, m, i, Settled(DUPLICATE))
    case InsertFails(m, i, cause) => SetOp(w, m, i, Requeueing(DbInsert, cause))
    case PublishItem(m, i, delivery, stamp, cause) => AfterPublish(w, m, i, delivery, stamp, cause)
    case BuildFails(m, i, cause) => SetOp(w, m, i, Compensating(w.requests[m].ops[i].uuid, DbInsert, cause))
    case Delete(m, i, ok) => AfterDelete(w, m, i, ok)
    case RequeueItem(m, i, delivery) => AfterRequeue(w, m, i, delivery)
    case EscalateItem(m, i, ok) => AfterEscalateItem(w, m, i, ok)
    case Commit(m) => SetPhase(w, m, Committed, w.requests[m].ops)
    case Crash(m) => SetPhase(w, m, Waiting, Todos(|w.requests[m].ops|))
    case AgentTake(n) => SetPc(w, n, InHand, Start)
    case OverCeiling(n, ok) => EscalateRow(w, n, ok, RetryCeilingReached, w.reimbs[n].errors)
    case ReadFails(n, cause) => SetPc(w, n, InHand, Republishing(w.clock + 1, cause))
    case ReadRow(n) => AfterRead(w, n)
    case Decide(n, d) =>
      SetPc(ApplyDecision(w, w.reimbs[n].uuid, d.status, Rule(d.why), d.receipts), n, InHand, Handled(RESOLVED))
    case DecideFails(n, cause) =>
      Log(SetPc(w, n, InHand, EscalatingFailure(cause)), DecisionFailed, None, Some(w.reimbs[n].uuid))
    case EscalateFailure(n, ok) =>
      EscalateRow(w, n, ok, DecisionStageFailure, Appended(w.reimbs[n].errors, Stage.Decide, w.reimbs[n].pc.cause))
    case Republish(n, delivery, stamp) => AfterRepublish(w, n, delivery, stamp)
    case AgentCommit(n) => SetPc(w, n, Committed, w.reimbs[n].pc)
    case AgentCrash(n) => SetPc(w, n, Waiting, Start)
    case ReviewRow(u, approved, text, receipts, counted) => AfterReviewRow(w, u, approved, text, receipts, counted)
  }

  function Next(w: World, e: Event): World
    requires Enabled(w, e)
  {
    Effect(w, e).(clock := w.clock + 1)
  }

  // ---------------------------------------------------------------- runs

  ghost predicate IsRun(w: World, events: seq<Event>)
    decreases |events|
  {
    |events| == 0 || (Enabled(w, events[0]) && IsRun(Next(w, events[0]), events[1..]))
  }

  ghost function After(w: World, events: seq<Event>): World
    requires IsRun(w, events)
    decreases |events|
  {
    if |events| == 0 then w else After(Next(w, events[0]), events[1..])
  }

  ghost predicate Reaches(start: World, events: seq<Event>, w: World) {
    IsRun(start, events) && After(start, events) == w
  }

  lemma {:induction false} Prepend(w: World, e: Event, w1: World, events: seq<Event>, end: World)
    requires Enabled(w, e) && Next(w, e) == w1 && Reaches(w1, events, end)
    ensures Reaches(w, [e] + events, end)
  {
    assert ([e] + events)[1..] == events;
  }

  lemma {:induction false} FirstStep(w: World, events: seq<Event>, end: World)
    requires Reaches(w, events, end) && events != []
    ensures Enabled(w, events[0]) && Reaches(Next(w, events[0]), events[1..], end)
  {
  }

  lemma {:induction false} Compose(w: World, first: seq<Event>, mid: World, second: seq<Event>, end: World)
    requires Reaches(w, first, mid) && Reaches(mid, second, end)
    ensures Reaches(w, first + second, end)
    decreases |first|
  {
    if first == [] {
      assert first + second == second;
    } else {
      var e, rest := first[0], first[1..];
      assert first + second == [e] + (rest + second);
      FirstStep(w, first, mid);
      var w1 := Next(w, e);
      Compose(w1, rest, mid, second, end);
      Prepend(w, e, w1, rest + second, end);
    }
  }

  lemma RunsCompose(w: World, first: seq<Event>, second: seq<Event>)
    requires IsRun(w, first) && IsRun(After(w, first), second)
    ensures Reaches(w, first + second, After(After(w, first), second))
  {
    Compose(w, first, After(w, first), second, After(After(w, first), second));
  }

  lemma {:induction false} Extend(start: World, events: seq<Event>, w: World, e: Event)
    requires Reaches(start, events, w) && Enabled(w, e)
    ensures Reaches(start, events + [e], Next(w, e))
  {
    assert [e][1..] == [];
    assert IsRun(Next(w, e), [e][1..]) && After(Next(w, e), [e][1..]) == Next(w, e);
    assert IsRun(w, [e]) && After(w, [e]) == Next(w, e);
    RunsCompose(start, events, [e]);
  }

  lemma ReachesOne(w: World, a: Event)
    requires Enabled(w, a)
    ensures Reaches(w, [a], Next(w, a))
  {
    Extend(w, [], w, a);
    assert [] + [a] == [a];
  }

  lemma ReachesTwo(w: World, a: Event, w1: World, b: Event)
    requires Enabled(w, a) && w1 == Next(w, a) && Enabled(w1, b)
    ensures Reaches(w, [a, b], Next(w1, b))
  {
    ReachesOne(w, a);
    Extend(w, [a], w1, b);
    assert [a] + [b] == [a, b];
  }

  lemma ReachesThree(w: World, a: Event, w1: World, b: Event, w2: World, c: Event)
    requires Enabled(w, a) && w1 == Next(w, a) && Enabled(w1, b) && w2 == Next(w1, b) && Enabled(w2, c)
    ensures Reaches(w, [a, b, c], Next(w2, c))
  {
    ReachesTwo(w, a, w1, b);
    Extend(w, [a, b], w2, c);
    assert [a, b] + [c] == [a, b, c];
  }
}
