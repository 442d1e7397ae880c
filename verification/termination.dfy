/** Crash-free runs end: a weighted count of what is still owed to one key never grows, bounding the handlings
    per submitted item of every key by 25, and every pipeline event strictly consumes fuel. */
module Termination {
  import opened Models
  import opened Repository
  import opened Protocol
  import opened Invariants
  import opened LinearToken
  import opened Sums
  import Orphans

  // A way to weigh a world: by item handler, by message handler, and by delivery phase.
  datatype Scale = Scale(op: (nat, Op) -> nat, pc: (nat, AgentPc) -> nat, phase: Phase -> nat)

  // What to weigh: items by key, messages by uuid.
  datatype Lens = Lens(key: Key -> bool, uuid: nat -> bool)

  const EVERYTHING := Lens(_ => true, _ => true)

  const NO_KEY := Key("", "")

  // A handler next to the key of its item.
  datatype Job = Job(op: Op, key: Key)

  function Keyed(entry: RequestEntry): (jobs: seq<Job>)
    ensures |jobs| == |entry.ops|
  {
    seq(|entry.ops|, i requires 0 <= i < |entry.ops| =>
      Job(entry.ops[i], if i < |entry.items| then entry.items[i].key else NO_KEY))
  }

  function OfJob(k: Scale, l: Lens, retry: nat, job: Job): nat {
    if l.key(job.key) then k.op(retry, job.op) else 0
  }

  function OpWeight(k: Scale, l: Lens, retry: nat): Job -> nat {
    job => OfJob(k, l, retry, job)
  }

  function OfRequest(k: Scale, l: Lens, entry: RequestEntry): nat {
    k.phase(entry.phase) + Sum(OpWeight(k, l, entry.retry), Keyed(entry))
  }

  function OfReimb(k: Scale, l: Lens, entry: ReimbEntry): nat {
    if l.uuid(entry.uuid) then k.phase(entry.phase) + k.pc(entry.retry, entry.pc) else 0
  }

  function RequestWeight(k: Scale, l: Lens): RequestEntry -> nat {
    entry => OfRequest(k, l, entry)
  }

  function ReimbWeight(k: Scale, l: Lens): ReimbEntry -> nat {
    entry => OfReimb(k, l, entry)
  }

  function Weight(k: Scale, l: Lens, w: World): nat {
    Sum(RequestWeight(k, l), w.requests) + Sum(ReimbWeight(k, l), w.reimbs)
  }

  // ---------------------------------------------------------------- how one event moves any weight

  function NewRequestsWeight(k: Scale, l: Lens, w: World, w': World): nat
    requires |w.requests| <= |w'.requests| <= |w.requests| + 1
  {
    if |w'.requests| > |w.requests| then RequestWeight(k, l)(w'.requests[|w.requests|]) else 0
  }

  function NewReimbsWeight(k: Scale, l: Lens, w: World, w': World): nat
    requires |w.reimbs| <= |w'.reimbs| <= |w.reimbs| + 1
  {
    if |w'.reimbs| > |w.reimbs| then ReimbWeight(k, l)(w'.reimbs[|w.reimbs|]) else 0
  }

  lemma AppendedSum<T>(f: T -> nat, s: seq<T>, t: seq<T>)
    requires |s| <= |t| <= |s| + 1
    ensures Sum(f, t) == Sum(f, t[..|s|]) + if |t| > |s| then f(t[|s|]) else 0
  {
    if |t| > |s| {
      assert t == t[..|s|] + [t[|s|]];
      SumAppend(f, t[..|s|], t[|s|]);
    } else {
      assert t[..|s|] == t;
    }
  }

  lemma KeyedUpdate(k: Scale, l: Lens, entry: RequestEntry, i: nat, op: Op)
    requires i < |entry.ops| == |entry.items|
    ensures OfRequest(k, l, entry.(ops := entry.ops[i := op]))
      + OpWeight(k, l, entry.retry)(Job(entry.ops[i], entry.items[i].key))
         == OfRequest(k, l, entry) + OpWeight(k, l, entry.retry)(Job(op, entry.items[i].key))
  {
    assert Keyed(entry.(ops := entry.ops[i := op])) == Keyed(entry)[i := Job(op, entry.items[i].key)];
    SumUpdate(OpWeight(k, l, entry.retry), Keyed(entry), i, Job(op, entry.items[i].key));
  }

  lemma ItemEventWeight(k: Scale, l: Lens, w: World, e: Event, w': World)
    requires Shape(w) && OpMoves(w, e, w') && |w.reimbs| <= |w'.reimbs| <= |w.reimbs| + 1 && w.reimbs <= w'.reimbs
    ensures var key := ItemAt(w, e.m, e.i).key;
      Weight(k, l, w') + OpWeight(k, l, w.requests[e.m].retry)(Job(w.requests[e.m].ops[e.i], key))
         == Weight(k, l, w) + OpWeight(k, l, w.requests[e.m].retry)(Job(w'.requests[e.m].ops[e.i], key))
            + NewRequestsWeight(k, l, w, w') + NewReimbsWeight(k, l, w, w')
  {
    var before, after := w.requests[e.m], w'.requests[..|w.requests|][e.m];
    assert after == w'.requests[e.m] && after == before.(ops := before.ops[e.i := after.ops[e.i]]);
    KeyedUpdate(k, l, before, e.i, after.ops[e.i]);
    SumUpdate(RequestWeight(k, l), w.requests, e.m, after);
    AppendedSum(RequestWeight(k, l), w.requests, w'.requests);
    AppendedSum(ReimbWeight(k, l), w.reimbs, w'.reimbs);
    assert w'.reimbs[..|w.reimbs|] == w.reimbs;
  }

  lemma MessageEventWeight(k: Scale, l: Lens, w: World, e: Event, w': World)
    requires OneEntryMoves(w, e, w') && w'.requests == w.requests
    ensures Weight(k, l, w') + ReimbWeight(k, l)(w.reimbs[e.n])
         == Weight(k, l, w) + ReimbWeight(k, l)(w'.reimbs[e.n]) + NewReimbsWeight(k, l, w, w')
  {
    assert w'.reimbs[..|w.reimbs|][e.n] == w'.reimbs[e.n];
    SumUpdate(ReimbWeight(k, l), w.reimbs, e.n, w'.reimbs[e.n]);
    AppendedSum(ReimbWeight(k, l), w.reimbs, w'.reimbs);
  }

  lemma PhaseEventWeight(k: Scale, l: Lens, w: World, m: nat, phase: Phase)
    requires m < |w.requests|
    ensures Weight(k, l, SetPhase(w, m, phase, w.requests[m].ops)) + k.phase(w.requests[m].phase)
      == Weight(k, l, w) + k.phase(phase)
  {
    assert Keyed(w.requests[m].(phase := phase)) == Keyed(w.requests[m]);
    SumUpdate(RequestWeight(k, l), w.requests, m, w.requests[m].(phase := phase));
  }

  // How many of the items the lens sees.
  function Seen(l: Lens): Item -> nat {
    (item: Item) => if l.key(item.key) then 1 else 0
  }

  lemma TodoWeight(k: Scale, l: Lens, retry: nat, item: Item)
    ensures OpWeight(k, l, retry)(Job(Todo, item.key)) == Seen(l)(item) * k.op(retry, Todo)
  {
  }

  lemma Distributes(a: nat, b: nat, c: nat)
    ensures (a + b) * c == a * c + b * c
  {
  }

  lemma {:induction false} TodosWeight(k: Scale, l: Lens, retry: nat, items: seq<Item>)
    ensures Sum(OpWeight(k, l, retry), Keyed(NewRequest(retry, [], items))) == Sum(Seen(l), items) * k.op(retry, Todo)
    decreases |items|
  {
    if items != [] {
      var front, last := items[..|items| - 1], items[|items| - 1];
      TodosWeight(k, l, retry, front);
      assert Keyed(NewRequest(retry, [], items)) == Keyed(NewRequest(retry, [], front)) + [Job(Todo, last.key)];
      SumAppend(OpWeight(k, l, retry), Keyed(NewRequest(retry, [], front)), Job(Todo, last.key));
      TodoWeight(k, l, retry, last);
      Distributes(Sum(Seen(l), front), Seen(l)(last), k.op(retry, Todo));
    }
  }

  lemma FreshRequestWeight(k: Scale, l: Lens, retry: nat, errors: seq<AttemptError>, items: seq<Item>)
    ensures RequestWeight(k, l)(NewRequest(retry, errors, items))
      == k.phase(Waiting) + Sum(Seen(l), items) * k.op(retry, Todo)
  {
    TodosWeight(k, l, retry, items);
    assert Keyed(NewRequest(retry, errors, items)) == Keyed(NewRequest(retry, [], items));
  }

  lemma ItemEventsKeepReimbs(w: World, e: Event)
    requires Shape(w) && Enabled(w, e) && IsItemEvent(e)
    ensures w.reimbs <= Next(w, e).reimbs
  {
    if e.PublishItem? { PublishAppendsReimb(w, e); } else { OtherEventsLeaveReimbs(w, e); }
  }

  lemma RetriedWeight(k: Scale, l: Lens, retry: nat, errors: seq<AttemptError>, item: Item)
    ensures RequestWeight(k, l)(NewRequest(retry, errors, [item])) == k.phase(Waiting) + if l.key(item.key)
      then k.op(retry, Todo) else 0
  {
    FreshRequestWeight(k, l, retry, errors, [item]);
    assert [item][..0] == [];
    assert Sum(Seen(l), [item]) == Sum(Seen(l), [item][..0]) + Seen(l)(item);
  }

  // ---------------------------------------------------------------- 25 handlings per item

  // Handlings one Reimbursement message can still cause, itself included.
  function MessageCost(retry: nat): (n: nat)
    ensures n >= 1
    decreases if retry > MAX_RETRY then 0 else MAX_RETRY + 1 - retry
  {
    if retry > MAX_RETRY then 1 else 1 + MessageCost(retry + 1)
  }

  // Handlings one Request item can still cause: itself, an ambiguous publish's message, its retry.
  function ItemCost(retry: nat): (n: nat)
    ensures n >= 1
    decreases if retry > MAX_RETRY then 0 else MAX_RETRY + 1 - retry
  {
    if retry > MAX_RETRY then 1 else 1 + MessageCost(0) + ItemCost(retry + 1)
  }

  function OpCredit(retry: nat, op: Op): nat {
    match op
    case Todo => ItemCost(retry)
    case Inserted(_, _) => ItemCost(retry)
    case Compensating(_, _, _) => 1 + ItemCost(retry + 1)
    case Requeueing(_, _) => 1 + ItemCost(retry + 1)
    case Settled(_) => 1
  }

  function PcCredit(retry: nat, pc: AgentPc): nat {
    match pc
    case Republishing(_, _) => 1 + MessageCost(retry + 1)
    case Handled(_) => 1
    case _ => MessageCost(retry)
  }

  const CREDIT := Scale(OpCredit, PcCredit, _ => 0)

  function OpDone(retry: nat, op: Op): nat { if op.Settled? then 1 else 0 }

  function PcDone(retry: nat, pc: AgentPc): nat { if pc.Handled? then 1 else 0 }

  // Completed handlings: items settled plus messages handled.
  const HANDLINGS := Scale(OpDone, PcDone, _ => 0)

  predicate Internal(e: Event) {
    !e.Post? && !e.Foreign? && !e.ReviewRow?
  }

  // The lens sees a row's messages only if it sees the item that the row came from.
  predicate Coherent(l: Lens, w: World, e: Event) {
    e.PublishItem? && Holds(w, e.m, e.i) && e.i < |w.requests[e.m].items| && l.uuid(Held(w, e.m, e.i)) ==>
      l.key(w.requests[e.m].items[e.i].key)
  }

  // Only a requeue appends a request, and it is the retried item alone.
  lemma NewRequestIsTheRetry(k: Scale, l: Lens, w: World, e: Event, w': World)
    requires Shape(w) && OpMoves(w, e, w')
    ensures NewRequestsWeight(k, l, w, w') ==
      if |w'.requests| == |w.requests| then 0
      else k.phase(Waiting) + OfJob(k, l, w.requests[e.m].retry + 1, Job(Todo, ItemAt(w, e.m, e.i).key))
  {
    if |w'.requests| > |w.requests| {
      RetriedWeight(k, l, w.requests[e.m].retry + 1, w'.requests[|w.requests|].errors, ItemAt(w, e.m, e.i));
    }
  }

  // Only a publish appends a message, and its handler starts from nothing.
  lemma NewReimbIsTheMessage(k: Scale, l: Lens, w: World, e: Event, w': World)
    requires Shape(w) && OpMoves(w, e, w') && ReimbsMove(w, e, w')
    ensures |w'.reimbs| > |w.reimbs| ==>
      && e.PublishItem? && w.requests[e.m].ops[e.i].Inserted?
      && NewReimbsWeight(k, l, w, w') == if l.uuid(Held(w, e.m, e.i)) then k.phase(Waiting) + k.pc(0, Start) else 0
  {
  }

  lemma ItemEventEarnsNoCredit(l: Lens, w: World, e: Event, w': World)
    requires Shape(w) && OpMoves(w, e, w') && ReimbsMove(w, e, w') && w.reimbs <= w'.reimbs && Coherent(l, w, e)
    ensures Weight(CREDIT, l, w') <= Weight(CREDIT, l, w)
  {
    ItemEventWeight(CREDIT, l, w, e, w');
    NewRequestIsTheRetry(CREDIT, l, w, e, w');
    NewReimbIsTheMessage(CREDIT, l, w, e, w');
  }

  lemma MessageEventEarnsNoCredit(l: Lens, w: World, e: Event, w': World)
    requires OneEntryMoves(w, e, w') && CrashFree(e)
      && (|w'.reimbs| > |w.reimbs| ==> w'.reimbs[|w.reimbs|].uuid == w.reimbs[e.n].uuid)
    ensures Weight(CREDIT, l, w') <= Weight(CREDIT, l, w)
  {
    MessageEventWeight(CREDIT, l, w, e, w');
  }

  // Items on the topic that one event put there from the API, of those the lens sees.
  function Arrived(l: Lens, e: Event): nat {
    if e.Post? && e.delivery.Reached() then Sum(Seen(l), e.items) else 0
  }

  lemma PostCredit(l: Lens, w: World, items: seq<Item>, delivery: Delivery)
    ensures Weight(CREDIT, l, AfterPost(w, items, delivery))
      == Weight(CREDIT, l, w) + 25 * Arrived(l, Post(items, delivery))
  {
    if delivery.Reached() {
      SumAppend(RequestWeight(CREDIT, l), w.requests, NewRequest(0, [], items));
      FreshRequestWeight(CREDIT, l, 0, [], items);
    }
  }

  /** What is still owed to the items a lens sees grows only when such an item arrives, and then by 25. */
  lemma CreditStep(l: Lens, w: World, e: Event)
    requires Shape(w) && Enabled(w, e) && CrashFree(e) && !e.Foreign? && Coherent(l, w, e)
    ensures Weight(CREDIT, l, Next(w, e)) <= Weight(CREDIT, l, w) + 25 * Arrived(l, e)
  {
    var w' := Next(w, e);
    if IsItemEvent(e) {
      OpMovesOnly(w, e);
      ReimbsMoveOnly(w, e);
      ItemEventsKeepReimbs(w, e);
      ItemEventEarnsNoCredit(l, w, e, w');
    } else if IsMessageEvent(e) {
      MessageEventsMoveOneEntry(w, e);
      RepublishAppendsReimb(w, e);
      MessageEventEarnsNoCredit(l, w, e, w');
    } else if e.Post? {
      PostCredit(l, w, e.items, e.delivery);
    } else if e.Take? {
      PhaseEventWeight(CREDIT, l, w, e.m, InHand);
    } else if e.Commit? {
      PhaseEventWeight(CREDIT, l, w, e.m, Committed);
    }
  }

  ghost predicate ApiOnly(events: seq<Event>) {
    forall k :: 0 <= k < |events| ==> !events[k].Foreign?
  }

  function Submitted(l: Lens, events: seq<Event>): nat {
    if events == [] then 0 else Arrived(l, events[0]) + Submitted(l, events[1..])
  }

  lemma OpsDoneBelowCredit(l: Lens, retry: nat, ops: seq<Job>)
    ensures Sum(OpWeight(HANDLINGS, l, retry), ops) <= Sum(OpWeight(CREDIT, l, retry), ops)
  {
    forall i | 0 <= i < |ops| ensures OpWeight(HANDLINGS, l, retry)(ops[i]) <= OpWeight(CREDIT, l, retry)(ops[i]) {
      assert OpDone(retry, ops[i].op) <= OpCredit(retry, ops[i].op);
    }
    SumBelow(OpWeight(HANDLINGS, l, retry), OpWeight(CREDIT, l, retry), ops);
  }

  lemma HandlingsAreCredited(l: Lens, w: World)
    ensures Weight(HANDLINGS, l, w) <= Weight(CREDIT, l, w)
  {
    forall m | 0 <= m < |w.requests|
      ensures RequestWeight(HANDLINGS, l)(w.requests[m]) <= RequestWeight(CREDIT, l)(w.requests[m])
    {
      OpsDoneBelowCredit(l, w.requests[m].retry, Keyed(w.requests[m]));
    }
    SumBelow(RequestWeight(HANDLINGS, l), RequestWeight(CREDIT, l), w.requests);
    forall n | 0 <= n < |w.reimbs|
      ensures ReimbWeight(HANDLINGS, l)(w.reimbs[n]) <= ReimbWeight(CREDIT, l)(w.reimbs[n])
    {
      assert PcDone(w.reimbs[n].retry, w.reimbs[n].pc) <= PcCredit(w.reimbs[n].retry, w.reimbs[n].pc);
    }
    SumBelow(ReimbWeight(HANDLINGS, l), ReimbWeight(CREDIT, l), w.reimbs);
  }

  // ---------------------------------------------------------------- one key at a time

  // The key each uuid was inserted under, by the end of the run; deleted rows included.
  ghost function KeysBorn(w: World, events: seq<Event>, born: seq<Key>): seq<Key>
    requires IsRun(w, events)
    decreases |events|
  {
    if |events| == 0 then born else KeysBorn(Next(w, events[0]), events[1..], BornBy(w, events[0], born))
  }

  function BornBy(w: World, e: Event, born: seq<Key>): seq<Key> {
    if (e.InsertPending? || (e.EscalateItem? && e.ok)) && OpIs(w, e.m, e.i) then born + [ItemAt(w, e.m, e.i).key]
      else born
  }

  // A register of births that is complete, and agrees with every row that is still there.
  ghost predicate Registers(born: seq<Key>, w: World) {
    |born| == |w.rows| && forall u: nat :: Exists(w.rows, u) ==> w.rows[u].row.key == born[u]
  }

  lemma RegistersStep(born: seq<Key>, w: World, e: Event)
    requires Shape(w) && Enabled(w, e) && Registers(born, w)
    ensures Registers(BornBy(w, e, born), Next(w, e)) && born <= BornBy(w, e, born)
  {
    var w' := Next(w, e);
    RowsMoveOnly(w, e);
    RowsGrowByInserts(w, e);
    forall u: nat | Exists(w'.rows, u) ensures w'.rows[u].row.key == BornBy(w, e, born)[u] {
      if u < |w.rows| {
        assert SlotMoves(w, e, w.rows[u], w'.rows[u], u);
      }
    }
  }

  lemma RowsGrowByInserts(w: World, e: Event)
    requires Enabled(w, e)
    ensures |Next(w, e).rows| == |w.rows| + if e.InsertPending? || (e.EscalateItem? && e.ok) then 1 else 0
  {
  }

  // Everything about one key: its items, and the messages of the rows born under it.
  function Of(key: Key, born: seq<Key>): Lens {
    Lens(k => k == key, (u: nat) => u < |born| && born[u] == key)
  }

  // A published row still is pending and its handler's own, so register and handler name the same key.
  lemma RegisterIsCoherent(key: Key, born: seq<Key>, w: World, e: Event, final: seq<Key>)
    requires Inv(w) && Enabled(w, e) && Registers(born, w) && born <= final
    ensures Coherent(Of(key, final), w, e)
  {
    if e.PublishItem? && Holds(w, e.m, e.i) {
      var u := Held(w, e.m, e.i);
      assert HasStatus(w.rows, u, Pending) && w.rows[u].row.key == w.requests[e.m].items[e.i].key;
      assert final[u] == born[u];
    }
  }

  lemma {:induction false} KeysBornExtends(w: World, events: seq<Event>, born: seq<Key>)
    requires IsRun(w, events)
    ensures born <= KeysBorn(w, events, born)
    decreases |events|
  {
    if |events| > 0 { KeysBornExtends(Next(w, events[0]), events[1..], BornBy(w, events[0], born)); }
  }

  lemma {:induction false} CreditAlways(key: Key, w: World, events: seq<Event>, born: seq<Key>, final: seq<Key>)
    requires Inv(w) && CrashFreeRun(w, events) && ApiOnly(events) && Registers(born, w)
    requires final == KeysBorn(w, events, born)
    ensures Weight(CREDIT, Of(key, final), After(w, events)) <= Weight(CREDIT, Of(key, final), w)
      + 25 * Submitted(Of(key, final), events)
    decreases |events|
  {
    if |events| > 0 {
      KeysBornExtends(w, events, born);
      RegisterIsCoherent(key, born, w, events[0], final);
      CreditStep(Of(key, final), w, events[0]);
      InvStep(w, events[0]);
      RegistersStep(born, w, events[0]);
      CreditAlways(key, Next(w, events[0]), events[1..], BornBy(w, events[0], born), final);
    }
  }

  // What a lens on one key sees: the items of that key, and the messages of rows inserted under it.
  lemma TheLensSees(key: Key, born: seq<Key>, k: Key, u: nat)
    ensures Of(key, born).key(k) <==> k == key
    ensures Of(key, born).uuid(u) <==> u < |born| && born[u] == key
  {
  }

  /** Handlings are counted one by one. An item event adds one exactly if it settles an item the lens sees. */
  lemma SettledItemsAreCounted(l: Lens, w: World, e: Event)
    requires Shape(w) && Enabled(w, e) && IsItemEvent(e)
    ensures var w' := Next(w, e);
      && e.m < |w'.requests| && e.i < |w'.requests[e.m].ops|
      && Weight(HANDLINGS, l, w') == Weight(HANDLINGS, l, w)
           + if w'.requests[e.m].ops[e.i].Settled? && l.key(w.requests[e.m].items[e.i].key) then 1 else 0
  {
    OpMovesOnly(w, e);
    ReimbsMoveOnly(w, e);
    ItemEventsKeepReimbs(w, e);
    ItemIsCounted(l, w, e, Next(w, e));
  }

  /** A message event adds one exactly if it ends the handling of a message the lens sees. */
  lemma HandledMessagesAreCounted(l: Lens, w: World, e: Event)
    requires Shape(w) && Enabled(w, e) && IsMessageEvent(e) && CrashFree(e)
    ensures var w' := Next(w, e);
      && e.n < |w.reimbs| <= |w'.reimbs|
      && Weight(HANDLINGS, l, w') == Weight(HANDLINGS, l, w)
           + if !w.reimbs[e.n].pc.Handled? && w'.reimbs[e.n].pc.Handled? && l.uuid(w.reimbs[e.n].uuid) then 1 else 0
  {
    MessageEventsMoveOneEntry(w, e);
    MessageIsCounted(l, w, e, Next(w, e));
  }

  lemma ItemIsCounted(l: Lens, w: World, e: Event, w': World)
    requires Shape(w) && OpMoves(w, e, w') && ReimbsMove(w, e, w') && w.reimbs <= w'.reimbs
    ensures Weight(HANDLINGS, l, w') == Weight(HANDLINGS, l, w)
      + if w'.requests[e.m].ops[e.i].Settled? && l.key(w.requests[e.m].items[e.i].key) then 1 else 0
  {
    ItemEventWeight(HANDLINGS, l, w, e, w');
    NewRequestIsTheRetry(HANDLINGS, l, w, e, w');
    NewReimbIsTheMessage(HANDLINGS, l, w, e, w');
  }

  lemma MessageIsCounted(l: Lens, w: World, e: Event, w': World)
    requires Shape(w) && OneEntryMoves(w, e, w') && CrashFree(e)
    ensures e.n < |w.reimbs| <= |w'.reimbs|
    ensures Weight(HANDLINGS, l, w') == Weight(HANDLINGS, l, w)
      + if !w.reimbs[e.n].pc.Handled? && w'.reimbs[e.n].pc.Handled? && l.uuid(w.reimbs[e.n].uuid) then 1 else 0
  {
    MessageEventWeight(HANDLINGS, l, w, e, w');
    assert MessageShape(w.reimbs[e.n]);
  }

  /** No other event adds any. */
  lemma RequestEventsCountNothing(l: Lens, w: World, e: Event)
    requires Shape(w) && Enabled(w, e) && CrashFree(e) && !IsItemEvent(e) && !IsMessageEvent(e)
    ensures Weight(HANDLINGS, l, Next(w, e)) == Weight(HANDLINGS, l, w)
  {
    var w' := Next(w, e);
    if |w'.requests| > |w.requests| {
      var entry := w'.requests[|w.requests|];
      assert w'.requests == w.requests + [entry];
      SumAppend(RequestWeight(HANDLINGS, l), w.requests, entry);
      assert entry == NewRequest(entry.retry, entry.errors, entry.items);
      FreshRequestWeight(HANDLINGS, l, entry.retry, entry.errors, entry.items);
    } else if e.Take? {
      PhaseEventWeight(HANDLINGS, l, w, e.m, InHand);
    } else if e.Commit? {
      PhaseEventWeight(HANDLINGS, l, w, e.m, Committed);
    }
  }

  /** And so are the items submitted: those of a post that reached the topic whose key the lens sees. */
  lemma ArrivalsAreCounted(l: Lens, items: seq<Item>, delivery: Delivery)
    ensures Arrived(l, Post(items, delivery)) ==
      if delivery.Lost? then 0 else |set i | 0 <= i < |items| && l.key(items[i].key)|
  {
    SumCounts(Seen(l), items);
    assert Ones(Seen(l), items) == (set i | 0 <= i < |items| && l.key(items[i].key));
  }

  lemma OnlyPostsArrive(l: Lens, e: Event)
    requires !e.Post?
    ensures Arrived(l, e) == 0
  {
  }

  /** Over any crash-free run of API traffic, and for every key: items of that key settled plus messages handled
      for rows born under it never exceed 25 per item submitted with that key, however the faults fall. */
  lemma AtMost25HandlingsPerItem(start: World, events: seq<Event>, key: Key)
    requires Init(start) && CrashFreeRun(start, events) && ApiOnly(events)
    ensures var l := Of(key, KeysBorn(start, events, []));
      Weight(HANDLINGS, l, After(start, events)) <= 25 * Submitted(l, events)
  {
    var final := KeysBorn(start, events, []);
    InitInv(start);
    CreditAlways(key, start, events, [], final);
    HandlingsAreCredited(Of(key, final), After(start, events));
  }

  // ---------------------------------------------------------------- every event consumes fuel

  // Events a message at `Start`, and an item at `Todo`, can still cause.
  function StartFuel(retry: nat): (n: nat)
    ensures n >= 1
    decreases if retry > MAX_RETRY then 0 else MAX_RETRY + 1 - retry
  {
    if retry > MAX_RETRY then 1 else 5 + StartFuel(retry + 1)
  }

  function TodoFuel(retry: nat): (n: nat)
    ensures n >= 1
    decreases if retry > MAX_RETRY then 0 else MAX_RETRY + 1 - retry
  {
    if retry > MAX_RETRY then 1 else 8 + StartFuel(0) + TodoFuel(retry + 1)
  }

  function OpFuel(retry: nat, op: Op): nat {
    match op
    case Todo => TodoFuel(retry)
    case Inserted(_, _) => 7 + StartFuel(0) + TodoFuel(retry + 1)
    case Compensating(_, _, _) => 4 + TodoFuel(retry + 1)
    case Requeueing(_, _) => 3 + TodoFuel(retry + 1)
    case Settled(_) => 0
  }

  function PcFuel(retry: nat, pc: AgentPc): nat {
    match pc
    case Start => StartFuel(retry)
    case Deciding => 2
    case EscalatingFailure(_) => 1
    case Republishing(_, _) => 3 + StartFuel(retry + 1)
    case Handled(_) => 0
  }

  function PhaseFuel(phase: Phase): nat {
    match phase
    case Waiting => 2
    case InHand => 1
    case Committed => 0
  }

  const FUEL := Scale(OpFuel, PcFuel, PhaseFuel)

  lemma ItemEventBurns(w: World, e: Event, w': World)
    requires Shape(w) && OpMoves(w, e, w') && ReimbsMove(w, e, w') && w.reimbs <= w'.reimbs
    ensures Weight(FUEL, EVERYTHING, w') < Weight(FUEL, EVERYTHING, w)
  {
    ItemEventWeight(FUEL, EVERYTHING, w, e, w');
    NewRequestIsTheRetry(FUEL, EVERYTHING, w, e, w');
    NewReimbIsTheMessage(FUEL, EVERYTHING, w, e, w');
  }

  lemma MessageEventBurns(w: World, e: Event, w': World)
    requires OneEntryMoves(w, e, w') && CrashFree(e)
    ensures Weight(FUEL, EVERYTHING, w') < Weight(FUEL, EVERYTHING, w)
  {
    MessageEventWeight(FUEL, EVERYTHING, w, e, w');
  }

  lemma EventBurnsFuel(w: World, e: Event)
    requires Shape(w) && Enabled(w, e) && CrashFree(e) && Internal(e)
    ensures Weight(FUEL, EVERYTHING, Next(w, e)) < Weight(FUEL, EVERYTHING, w)
  {
    if IsItemEvent(e) {
      OpMovesOnly(w, e);
      ReimbsMoveOnly(w, e);
      ItemEventsKeepReimbs(w, e);
      ItemEventBurns(w, e, Next(w, e));
    } else if IsMessageEvent(e) {
      MessageEventsMoveOneEntry(w, e);
      MessageEventBurns(w, e, Next(w, e));
    } else if e.Take? {
      PhaseEventWeight(FUEL, EVERYTHING, w, e.m, InHand);
    } else {
      PhaseEventWeight(FUEL, EVERYTHING, w, e.m, Committed);
    }
  }

  /** Without crashes and without new input the pipeline stops: a run is no longer than its fuel. */
  lemma {:induction false} RunsAreFinite(w: World, events: seq<Event>)
    requires Shape(w) && CrashFreeRun(w, events) && forall k :: 0 <= k < |events| ==> Internal(events[k])
    ensures |events| + Weight(FUEL, EVERYTHING, After(w, events)) <= Weight(FUEL, EVERYTHING, w)
    decreases |events|
  {
    if |events| > 0 {
      ShapeStep(w, events[0]);
      EventBurnsFuel(w, events[0]);
      RunsAreFinite(Next(w, events[0]), events[1..]);
    }
  }

  predicate Drained(w: World) {
    && (forall m :: 0 <= m < |w.requests| ==> w.requests[m].phase.Committed?)
    && (forall n :: 0 <= n < |w.reimbs| ==> w.reimbs[n].phase.Committed?)
  }

  lemma RequestCanMove(w: World, m: nat, cause: Cause) returns (e: Event)
    requires Inv(w) && m < |w.requests| && !w.requests[m].phase.Committed?
    ensures Enabled(w, e) && CrashFree(e) && Internal(e)
  {
    var r := w.requests[m];
    if r.phase.Waiting? {
      e := Take(m);
    } else if AllSettled(r.ops) {
      e := Commit(m);
    } else {
      assert ShapeOf(r);
      var i :| 0 <= i < |r.ops| && !r.ops[i].Settled?;
      if r.ops[i].Inserted? {
        e := BuildFails(m, i, cause);
      } else if r.ops[i].Compensating? {
        e := Delete(m, i, true);
      } else if r.ops[i].Requeueing? {
        e := RequeueItem(m, i, Lost);
      } else {
        e := if !r.items[i].valid then RejectItem(m, i)
             else if r.retry <= MAX_RETRY then InsertFails(m, i, cause) else EscalateItem(m, i, false);
      }
    }
  }

  lemma MessageCanMove(w: World, n: nat) returns (e: Event)
    requires Inv(w) && n < |w.reimbs| && !w.reimbs[n].phase.Committed?
    ensures Enabled(w, e) && CrashFree(e) && Internal(e)
  {
    var r := w.reimbs[n];
    if r.phase.Waiting? {
      e := AgentTake(n);
    } else {
      e := match r.pc
        case Start => if r.retry <= MAX_RETRY then ReadRow(n) else OverCeiling(n, false)
        case Deciding => Event.Decide(n, Decision(HumanReview, Judged(""), NO_RECEIPTS))
        case EscalatingFailure(_) => EscalateFailure(n, false)
        case Republishing(since, _) => Republish(n, Lost, since)
        case Handled(_) => AgentCommit(n);
    }
  }

  /** It never gets stuck on the way: while any offset is uncommitted, some event can happen. */
  lemma NeverStuck(w: World, cause: Cause) returns (e: Event)
    requires Inv(w) && !Drained(w)
    ensures Enabled(w, e) && CrashFree(e) && Internal(e)
  {
    if m: nat :| m < |w.requests| && !w.requests[m].phase.Committed? {
      e := RequestCanMove(w, m, cause);
    } else {
      var n: nat :| n < |w.reimbs| && !w.reimbs[n].phase.Committed?;
      e := MessageCanMove(w, n);
    }
  }

  // Nothing more can happen inside the pipeline.
  ghost predicate Stuck(w: World) {
    forall e: Event :: CrashFree(e) && Internal(e) ==> !Enabled(w, e)
  }

  /** So a crash-free run that is not fed and can go no further has drained both topics, and every run that is
      not fed does get there: it has at most as many events as its fuel. */
  lemma UnfedRunsDrain(w: World, events: seq<Event>)
    requires Inv(w) && CrashFreeRun(w, events) && forall k :: 0 <= k < |events| ==> Internal(events[k])
    ensures |events| <= Weight(FUEL, EVERYTHING, w)
    ensures Stuck(After(w, events)) ==>
      && (forall m :: 0 <= m < |After(w, events).requests| ==> After(w, events).requests[m].phase.Committed?)
      && (forall n :: 0 <= n < |After(w, events).reimbs| ==> After(w, events).reimbs[n].phase.Committed?)
  {
    RunsAreFinite(w, events);
    InvAlways(w, events);
    if !Drained(After(w, events)) {
      var e := NeverStuck(After(w, events), Cause("0", "", ""));
    }
  }

  /** And what a drained pipeline still has pending, the failure log names: as long as no publisher crash has killed
      a handler that held a row, whatever else crashed. */
  lemma DrainedPendingRowsAreNamed(start: World, events: seq<Event>, w: World, u: nat)
    requires Init(start) && Orphans.CalmRun(start, events) && Reaches(start, events, w)
    requires Drained(w) && HasStatus(w.rows, u, Pending)
    ensures Orphans.Named(w, u)
  {
    Orphans.NoOrphanAlways(start, events);
    InitInv(start);
    InvAlways(start, events);
  }
}
