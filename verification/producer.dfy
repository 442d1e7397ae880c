/** publish over the producer that every caller of the process shares: where the three-valued outcome comes from. */
module SharedProducer {
  import Protocol

  const MESSAGE_TIMEOUT_MS: nat := 8000
  const PUBLISH_TIMEOUT_MS: nat := 10000

  // The client's queue (message to expiry time), the topic, the messages reported failed, and the clock.
  datatype Client = Client(outstanding: map<nat, nat>, log: seq<nat>, failed: set<nat>, next: nat, now: nat)

  // What can happen while flush waits: another caller produces, the broker stores a message, its
  // acknowledgement arrives, it is refused, or time passes.
  datatype Step = Produce | Store(id: nat) | Acknowledge(id: nat) | Refuse(id: nat) | Wait(ms: nat)

  function Produced(c: Client): Client {
    c.(outstanding := c.outstanding[c.next := c.now + MESSAGE_TIMEOUT_MS], next := c.next + 1)
  }

  function Due(c: Client, now: nat): set<nat> {
    set id | id in c.outstanding && c.outstanding[id] <= now
  }

  // The clock reaches `now`: messages past their own timeout are reported failed.
  function At(c: Client, now: nat): Client {
    c.(now := now, outstanding := c.outstanding - Due(c, now), failed := c.failed + Due(c, now))
  }

  function Apply(c: Client, s: Step): Client {
    match s
    case Produce => Produced(c)
    case Store(id) => if id in c.outstanding && id !in c.log then c.(log := c.log + [id]) else c
    case Acknowledge(id) => if id in c.log then c.(outstanding := c.outstanding - {id}) else c
    case Refuse(id) => if id in c.outstanding then c.(outstanding := c.outstanding - {id}, failed := c.failed + {id})
        else c
    case Wait(ms) => At(c, c.now + ms)
  }

  // flush: until nothing at all is outstanding, or the deadline.
  function Flushed(c: Client, deadline: nat, steps: seq<Step>): Client
    decreases |steps|
  {
    if c.outstanding == map[] || c.now >= deadline then c
    else if steps == [] then At(c, deadline)
    else Flushed(Apply(c, steps[0]), deadline, steps[1..])
  }

  datatype Verdict = Delivered | TimeoutError(pending: nat) | DeliveryError

  function VerdictOf(c: Client, id: nat): Verdict {
    if |c.outstanding| > 0 then TimeoutError(|c.outstanding|) else if id in c.failed then DeliveryError else Delivered
  }

  class Producer {
    var outstanding: map<nat, nat>
    var log: seq<nat>
    var failed: set<nat>
    var next: nat
    var now: nat

    constructor ()
      ensures View() == Client(map[], [], {}, 0, 0)
    {
      outstanding, log, failed, next, now := map[], [], {}, 0, 0;
    }

    function View(): Client
      reads this
    {
      Client(outstanding, log, failed, next, now)
    }

    method Become(c: Client)
      modifies this
      ensures View() == c
    {
      outstanding, log, failed, next, now := c.outstanding, c.log, c.failed, c.next, c.now;
    }

    /** produce_and_flush, over whatever happens while it waits. */
    method ProduceAndFlush(steps: seq<Step>) returns (id: nat, verdict: Verdict)
      modifies this
      ensures id == old(next) && View() == Flushed(Produced(old(View())), old(now) + PUBLISH_TIMEOUT_MS, steps)
      ensures verdict == VerdictOf(View(), id)
    {
      id := next;
      var deadline := now + PUBLISH_TIMEOUT_MS;
      outstanding := outstanding[id := now + MESSAGE_TIMEOUT_MS];
      next := next + 1;
      var k := 0;
      while k < |steps| && outstanding != map[] && now < deadline
        invariant k <= |steps|
        invariant Flushed(View(), deadline, steps[k..]) == Flushed(Produced(old(View())), deadline, steps)
      {
        assert steps[k..][0] == steps[k] && steps[k..][1..] == steps[k + 1..];
        Become(Apply(View(), steps[k]));
        k := k + 1;
      }
      if outstanding != map[] && now < deadline {
        Become(At(View(), deadline));
      }
      verdict := VerdictOf(View(), id);
    }
  }

  // ---------------------------------------------------------------- what a verdict means

  // A message is outstanding, reported failed, or stored; stamps lie within one timeout of the clock.
  predicate Consistent(c: Client) {
    && (forall id :: id in c.outstanding ==>
          id < c.next && id !in c.failed && c.now < c.outstanding[id] <= c.now + MESSAGE_TIMEOUT_MS)
    && (forall id :: id in c.log ==> id < c.next)
    && (forall id :: id in c.failed ==> id < c.next)
    && (forall id: nat :: id < c.next && id !in c.outstanding && id !in c.failed ==> id in c.log)
    && (forall i, j :: 0 <= i < j < |c.log| ==> c.log[i] != c.log[j])
  }

  // A message's own expiry time never moves, and once settled it stays settled.
  predicate Tracks(c: Client, id: nat, expires: nat) {
    id < c.next && (id in c.outstanding ==> c.outstanding[id] == expires)
  }

  lemma TimePasses(c: Client, now: nat)
    requires Consistent(c) && c.now <= now
    ensures Consistent(At(c, now))
  {
  }

  lemma ConsistentStep(c: Client, s: Step)
    requires Consistent(c)
    ensures Consistent(Apply(c, s)) && c.now <= Apply(c, s).now && c.log <= Apply(c, s).log
  {
    if s.Wait? { TimePasses(c, c.now + s.ms); }
  }

  lemma {:induction false} FlushEnds(c: Client, deadline: nat, steps: seq<Step>, id: nat, expires: nat)
    requires Consistent(c) && Tracks(c, id, expires)
    ensures var d := Flushed(c, deadline, steps);
      Consistent(d) && Tracks(d, id, expires) && c.log <= d.log && (d.outstanding == map[] || d.now >= deadline)
    decreases |steps|
  {
    if c.outstanding != map[] && c.now < deadline {
      if steps == [] {
        TimePasses(c, deadline);
      } else {
        ConsistentStep(c, steps[0]);
        FlushEnds(Apply(c, steps[0]), deadline, steps[1..], id, expires);
      }
    }
  }

  /** A message's fate is settled when its publish returns, because its own timeout is the shorter one: it is
      never still queued. Success is reported exactly when it was not refused and nobody else's message is
      pending; success means stored, and of a failure the caller knows only that it was refused or others wait. */
  lemma VerdictMeansSettled(c: Client, steps: seq<Step>)
    requires Consistent(c)
    ensures var id := c.next;
      var d := Flushed(Produced(c), c.now + PUBLISH_TIMEOUT_MS, steps);
      var verdict := VerdictOf(d, id);
      && Consistent(d)
      && id !in d.outstanding
      && (verdict.Delivered? <==> id !in d.failed && d.outstanding == map[])
      && (verdict.Delivered? ==> id in d.log)
      && (id in d.failed || id in d.log)
  {
    var id, expires := c.next, c.now + MESSAGE_TIMEOUT_MS;
    FlushEnds(Produced(c), c.now + PUBLISH_TIMEOUT_MS, steps, id, expires);
  }

  // What the protocol knows of one publish: did the message get there, and what was the caller told?
  function DeliveryOf(d: Client, id: nat): Protocol.Delivery {
    if id !in d.log then Protocol.Lost
    else if VerdictOf(d, id).Delivered? then Protocol.Delivered
    else Protocol.DeliveredButReported
  }

  /** The protocol's three outcomes are all there are, and tell the truth about both sides: the message is on
      the topic exactly when the delivery reached it, and the caller sees PublishFailed exactly when it raises. */
  lemma PublishIsThreeValued(c: Client, steps: seq<Step>)
    requires Consistent(c)
    ensures var d := Flushed(Produced(c), c.now + PUBLISH_TIMEOUT_MS, steps);
      && (DeliveryOf(d, c.next).Reached() <==> c.next in d.log)
      && (DeliveryOf(d, c.next).Raises() <==> !VerdictOf(d, c.next).Delivered?)
  {
    VerdictMeansSettled(c, steps);
  }

  // ---------------------------------------------------------------- the third outcome

  // The message is stored and acknowledged; a second caller's message, produced meanwhile, is not by the deadline.
  const OTHERS_PENDING: seq<Step> := [Store(0), Wait(5000), Produce, Acknowledge(0)]

  // Stored, but the acknowledgement never came.
  const ACKNOWLEDGEMENT_LOST: seq<Step> := [Store(0), Refuse(0)]

  const FRESH := Client(map[], [], {}, 0, 0)

  lemma OneStep(c: Client, s: Step, rest: seq<Step>)
    requires 0 in c.outstanding && c.now < PUBLISH_TIMEOUT_MS
    ensures Flushed(c, PUBLISH_TIMEOUT_MS, [s] + rest) == Flushed(Apply(c, s), PUBLISH_TIMEOUT_MS, rest)
  {
    assert ([s] + rest)[1..] == rest;
  }

  lemma Waiting(c: Client, now: nat)
    requires forall id :: id in c.outstanding ==> c.outstanding[id] > now
    ensures At(c, now) == c.(now := now)
  {
    assert Due(c, now) == {};
  }

  /** Delivered and reported failed is a real outcome: the acknowledgement can get lost, ... */
  lemma DeliveredYetRefused()
    ensures var d := Flushed(Produced(FRESH), PUBLISH_TIMEOUT_MS, ACKNOWLEDGEMENT_LOST);
      d.log == [0] && VerdictOf(d, 0) == DeliveryError
  {
    var stored := Apply(Produced(FRESH), Store(0));
    OneStep(Produced(FRESH), Store(0), [Refuse(0)]);
    OneStep(stored, Refuse(0), []);
    assert ACKNOWLEDGEMENT_LOST == [Store(0)] + [Refuse(0)] && [Refuse(0)] == [Refuse(0)] + [];
    assert Apply(stored, Refuse(0)).outstanding == map[];
  }

  /** ... or a message of someone else, produced while this one waited, can be pending at the deadline. */
  lemma DeliveredYetOthersPending()
    ensures var d := Flushed(Produced(FRESH), PUBLISH_TIMEOUT_MS, OTHERS_PENDING);
      d.log == [0] && 0 !in d.failed && VerdictOf(d, 0) == TimeoutError(1)
  {
    var stored := Apply(Produced(FRESH), Store(0));
    var later := stored.(now := 5000);
    Waiting(stored, 5000);
    var two := Apply(later, Produce);
    var acked := Apply(two, Acknowledge(0));
    assert OTHERS_PENDING == [Store(0)] + ([Wait(5000)] + ([Produce] + ([Acknowledge(0)] + [])));
    OneStep(Produced(FRESH), Store(0), [Wait(5000)] + ([Produce] + ([Acknowledge(0)] + [])));
    OneStep(stored, Wait(5000), [Produce] + ([Acknowledge(0)] + []));
    OneStep(later, Produce, [Acknowledge(0)] + []);
    OneStep(two, Acknowledge(0), []);
    assert acked.outstanding == map[1 := 13000];
    Waiting(acked, PUBLISH_TIMEOUT_MS);
    assert |acked.outstanding| == 1;
  }

  // ---------------------------------------------------------------- the other two

  /** Stored and acknowledged, with nobody else waiting: delivered. */
  lemma DeliveredWhenAcknowledged()
    ensures var d := Flushed(Produced(FRESH), PUBLISH_TIMEOUT_MS, [Store(0)] + ([Acknowledge(0)] + []));
      d.log == [0] && VerdictOf(d, 0) == Delivered
  {
    var stored := Apply(Produced(FRESH), Store(0));
    OneStep(Produced(FRESH), Store(0), [Acknowledge(0)] + []);
    OneStep(stored, Acknowledge(0), []);
    assert Apply(stored, Acknowledge(0)).outstanding == map[];
  }

  /** Nothing heard at all: the message's own eight seconds run out before the caller's ten, and it is lost. */
  lemma LostWhenNothingIsHeard()
    ensures MESSAGE_TIMEOUT_MS == 8000 && PUBLISH_TIMEOUT_MS == 10000
    ensures var d := Flushed(Produced(FRESH), 10000, []);
      d.log == [] && d.failed == {0} && d.now == 10000 && VerdictOf(d, 0) == DeliveryError
  {
    assert Due(Produced(FRESH), 10000) == {0};
    assert At(Produced(FRESH), 10000).outstanding == map[];
  }

  /** What the caller is told comes in this order: somebody still waits; else this message was refused; else it is
      delivered. */
  lemma VerdictsInOrder(c: Client, id: nat)
    ensures c.outstanding != map[] ==> VerdictOf(c, id) == TimeoutError(|c.outstanding|)
    ensures c.outstanding == map[] && id in c.failed ==> VerdictOf(c, id) == DeliveryError
    ensures c.outstanding == map[] && id !in c.failed ==> VerdictOf(c, id) == Verdict.Delivered
  {
  }
}
