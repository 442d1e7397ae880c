/** The consume loops: one message at a time, handled and only then committed. */
module ConsumeLoop {

  // What one turn of the loop meets: the stop flag, a poll, and possibly a process death.
  datatype Poll = Nothing | ErrorEvent | Message

  datatype Death = Alive | BeforeHandling | DuringHandling | BeforeCommit

  datatype Turn = Turn(stop: bool, poll: Poll, death: Death, raises: bool)

  // Offsets on a log of `size` records, every handling that ended so far, in order, and those of them
  // that ended without an exception.
  datatype Cursor = Cursor(position: nat, committed: nat, handled: seq<nat>, completed: seq<nat>)

  datatype Ending = Running | Stopped | Died

  function Ended(c: Cursor, raised: bool): Cursor {
    c.(position := c.position + 1, handled := c.handled + [c.position],
       completed := if raised then c.completed else c.completed + [c.position])
  }

  // One turn. `guarded` loops (the publisher's) absorb an exception of the handler and still commit;
  // the agent's loop lets it end the process.
  function OneTurn(size: nat, guarded: bool, c: Cursor, t: Turn): (Cursor, Ending) {
    if t.stop then (c, Stopped)
    else if !t.poll.Message? || c.position >= size then (c, Running)
    else if t.death.BeforeHandling? || t.death.DuringHandling? then (c.(position := c.position + 1), Died)
    else
      var done := Ended(c, t.raises);
      if t.death.BeforeCommit? || (t.raises && !guarded) then (done, Died)
      else (done.(committed := c.position + 1), Running)
  }

  // A session: turns until one ends it. Also says how many turns were used.
  function Session(size: nat, guarded: bool, c: Cursor, turns: seq<Turn>): (Cursor, Ending, nat)
    decreases |turns|
  {
    if |turns| == 0 then (c, Running, 0)
    else
      var (c', ending) := OneTurn(size, guarded, c, turns[0]);
      if ending.Running? then
        var (d, e, used) := Session(size, guarded, c', turns[1..]);
        (d, e, used + 1)
      else (c', ending, 0)
  }

  class Consumer {
    const size: nat
    var position: nat
    var committed: nat
    var handled: seq<nat>
    var completed: seq<nat>

    constructor (size: nat)
      ensures this.size == size && View() == Cursor(0, 0, [], [])
    {
      this.size := size;
      position, committed, handled, completed := 0, 0, [], [];
    }

    function View(): Cursor
      reads this
    {
      Cursor(position, committed, handled, completed)
    }

    // A restarted process resumes at the committed offset.
    method Restart()
      modifies this`position
      ensures View() == Cursor(old(committed), old(committed), old(handled), old(completed))
    {
      position := committed;
    }

    /** run: the loop of either service, over whatever turns the environment deals. */
    method Run(guarded: bool, turns: seq<Turn>) returns (ending: Ending, used: nat)
      modifies this`position, this`committed, this`handled, this`completed
      ensures (View(), ending, used) == Session(size, guarded, old(View()), turns)
    {
      used := 0;
      while used < |turns| && !turns[used].stop
        invariant used <= |turns|
        invariant var (d, e, n) := Session(size, guarded, View(), turns[used..]);
          Session(size, guarded, old(View()), turns) == (d, e, used + n)
      {
        var t := turns[used];
        assert turns[used..][0] == t && turns[used..][1..] == turns[used + 1..];
        if t.poll.Message? && position < size {
          var offset := position;
          position := position + 1;
          if t.death.BeforeHandling? || t.death.DuringHandling? {
            return Died, used;
          }
          handled := handled + [offset];
          if !t.raises {
            completed := completed + [offset];
          }
          if t.death.BeforeCommit? || (t.raises && !guarded) {
            return Died, used;
          }
          committed := offset + 1;
        }
        used := used + 1;
      }
      ending := if used < |turns| then Stopped else Running;
    }

    /** Any number of processes in succession, each ended by a signal or a crash. */
    method RunSessions(guarded: bool, sessions: seq<seq<Turn>>)
      requires AtLeastOnce(size, View()) && InLogOrder(handled)
      modifies this
      ensures View() == Sessions(size, guarded, old(View()), sessions)
      ensures AtLeastOnce(size, View()) && InLogOrder(handled)
    {
      var k := 0;
      while k < |sessions|
        invariant k <= |sessions|
        invariant Sessions(size, guarded, old(View()), sessions) == Sessions(size, guarded, View(), sessions[k..])
      {
        assert sessions[k..][0] == sessions[k] && sessions[k..][1..] == sessions[k + 1..];
        Restart();
        var _, _ := Run(guarded, sessions[k]);
        k := k + 1;
      }
      CommittedMeansHandled(size, guarded, old(View()), sessions);
    }
  }

  function Sessions(size: nat, guarded: bool, c: Cursor, sessions: seq<seq<Turn>>): Cursor
    decreases |sessions|
  {
    if |sessions| == 0 then c
    else Sessions(size, guarded, Session(size, guarded, c.(position := c.committed), sessions[0]).0, sessions[1..])
  }

  // ---------------------------------------------------------------- what a turn does

  /** One turn, by what it meets. Nothing is done once the flag is up, and nothing without a message. A message is
      handled and then committed; a death before the handler ends leaves no trace of it, one after it leaves it
      uncommitted, and so does an exception in a loop that is not guarded. */
  lemma TurnDoes(size: nat, guarded: bool, c: Cursor, t: Turn)
    ensures t.stop ==> OneTurn(size, guarded, c, t) == (c, Stopped)
    ensures !t.stop && (!t.poll.Message? || c.position >= size) ==> OneTurn(size, guarded, c, t) == (c, Running)
    ensures !t.stop && t.poll.Message? && c.position < size ==>
      var at := c.position;
      OneTurn(size, guarded, c, t) ==
        match t.death
        case BeforeHandling => (Cursor(at + 1, c.committed, c.handled, c.completed), Died)
        case DuringHandling => (Cursor(at + 1, c.committed, c.handled, c.completed), Died)
        case BeforeCommit =>
          (Cursor(at + 1, c.committed, c.handled + [at], if t.raises then c.completed else c.completed + [at]), Died)
        case Alive =>
          if !t.raises then (Cursor(at + 1, at + 1, c.handled + [at], c.completed + [at]), Running)
          else if guarded then (Cursor(at + 1, at + 1, c.handled + [at], c.completed), Running)
          else (Cursor(at + 1, c.committed, c.handled + [at], c.completed), Died)
  {
  }

  // The next k offsets from `at` on.
  function Offsets(at: nat, k: nat): (s: seq<nat>)
    ensures |s| == k && forall j :: 0 <= j < k ==> s[j] == at + j
  {
    seq(k, j requires 0 <= j < k => at + j)
  }

  // A turn that brings a message and ends well.
  predicate Ordinary(t: Turn) {
    !t.stop && t.poll.Message? && t.death.Alive? && !t.raises
  }

  lemma {:induction false} OrdinaryRest(size: nat, guarded: bool, c: Cursor, turns: seq<Turn>)
    requires turns != [] && c.position < size && Ordinary(turns[0])
    ensures var at := c.position;
      var (d, ending, used) := Session(size, guarded, Cursor(at + 1, at + 1, c.handled + [at], c.completed + [at]),
          turns[1..]);
      Session(size, guarded, c, turns) == (d, ending, used + 1)
  {
  }

  /** Progress: k messages in k ordinary turns are all handled, completed and committed, each once, in log order. */
  lemma {:induction false} OrdinaryTurnsDoTheWork(size: nat, guarded: bool, c: Cursor, turns: seq<Turn>)
    requires c.committed == c.position && c.position + |turns| <= size
    requires forall t :: t in turns ==> !t.stop && t.poll.Message? && t.death.Alive? && !t.raises
    ensures var at, k := c.position, |turns|;
      Session(size, guarded, c, turns) ==
        (Cursor(at + k, at + k, c.handled + Offsets(at, k), c.completed + Offsets(at, k)), Running, k)
    decreases |turns|
  {
    var at, k := c.position, |turns|;
    if k > 0 {
      assert Ordinary(turns[0]);
      OrdinaryRest(size, guarded, c, turns);
      OrdinaryTurnsDoTheWork(size, guarded, Cursor(at + 1, at + 1, c.handled + [at], c.completed + [at]), turns[1..]);
      assert Offsets(at, k) == [at] + Offsets(at + 1, k - 1);
      assert (c.handled + [at]) + Offsets(at + 1, k - 1) == c.handled + Offsets(at, k);
      assert (c.completed + [at]) + Offsets(at + 1, k - 1) == c.completed + Offsets(at, k);
    } else {
      assert c.handled + Offsets(at, 0) == c.handled && c.completed + Offsets(at, 0) == c.completed;
    }
  }

  /** A guarded loop does not stop at an exception either: k messages whose handlers all raise are handled and
      committed, and none of them completed. */
  lemma {:induction false} GuardedTurnsGoOn(size: nat, c: Cursor, turns: seq<Turn>)
    requires c.committed == c.position && c.position + |turns| <= size
    requires forall t :: t in turns ==> !t.stop && t.poll.Message? && t.death.Alive? && t.raises
    ensures var at, k := c.position, |turns|;
      Session(size, true, c, turns) == (Cursor(at + k, at + k, c.handled + Offsets(at, k), c.completed), Running, k)
    decreases |turns|
  {
    var at, k := c.position, |turns|;
    if k > 0 {
      assert turns[0] in turns;
      TurnDoes(size, true, c, turns[0]);
      GuardedTurnsGoOn(size, Cursor(at + 1, at + 1, c.handled + [at], c.completed), turns[1..]);
      assert Offsets(at, k) == [at] + Offsets(at + 1, k - 1);
      assert (c.handled + [at]) + Offsets(at + 1, k - 1) == c.handled + Offsets(at, k);
    } else {
      assert c.handled + Offsets(at, 0) == c.handled;
    }
  }

  /** A turn without a message changes nothing and the loop goes on. */
  lemma IdleTurnsAreSkipped(size: nat, guarded: bool, c: Cursor, t: Turn, turns: seq<Turn>)
    requires !t.stop && !t.poll.Message?
    ensures Session(size, guarded, c, [t] + turns).0 == Session(size, guarded, c, turns).0
    ensures Session(size, guarded, c, [t] + turns).1 == Session(size, guarded, c, turns).1
  {
    assert ([t] + turns)[1..] == turns;
  }

  /** A restart resumes at the committed offset: whatever was taken and not committed is taken again. */
  lemma RestartRedelivers(size: nat, guarded: bool, c: Cursor, turns: seq<Turn>)
    requires c.committed + |turns| <= size
    requires forall t :: t in turns ==> !t.stop && t.poll.Message? && t.death.Alive? && !t.raises
    ensures var at, k := c.committed, |turns|;
      Sessions(size, guarded, c, [turns]) ==
        Cursor(at + k, at + k, c.handled + Offsets(at, k), c.completed + Offsets(at, k))
  {
    OrdinaryTurnsDoTheWork(size, guarded, c.(position := c.committed), turns);
    assert [turns][1..] == [];
  }

  // ---------------------------------------------------------------- at least once, in order

  // Every offset below the committed one was handled to an end.
  ghost predicate AtLeastOnce(size: nat, c: Cursor) {
    c.committed <= c.position <= size && forall o: nat :: o < c.committed ==> o in c.handled
  }

  // No offset is handled before all earlier ones have been.
  ghost predicate InLogOrder(handled: seq<nat>) {
    forall j: nat, o: nat :: j < |handled| && o < handled[j] ==> o in handled[..j]
  }

  ghost predicate UpToDate(c: Cursor) {
    forall o: nat :: o < c.position ==> o in c.handled
  }

  lemma OneTurnKeeps(size: nat, guarded: bool, c: Cursor, t: Turn)
    requires AtLeastOnce(size, c) && InLogOrder(c.handled) && UpToDate(c)
    ensures var (d, ending) := OneTurn(size, guarded, c, t);
      AtLeastOnce(size, d) && InLogOrder(d.handled) && (ending.Died? || UpToDate(d))
  {
    var d := OneTurn(size, guarded, c, t).0;
    if d.handled != c.handled {
      assert d.handled == c.handled + [c.position];
      forall j: nat, o: nat | j < |d.handled| && o < d.handled[j] ensures o in d.handled[..j] {
        if j < |c.handled| {
          assert d.handled[..j] == c.handled[..j];
        } else {
          assert d.handled[..j] == c.handled;
        }
      }
      assert d.handled[|c.handled|] == c.position;
    }
  }

  lemma {:induction false} SessionKeeps(size: nat, guarded: bool, c: Cursor, turns: seq<Turn>)
    requires AtLeastOnce(size, c) && InLogOrder(c.handled) && UpToDate(c)
    ensures var (d, ending, used) := Session(size, guarded, c, turns); AtLeastOnce(size, d) && InLogOrder(d.handled)
    decreases |turns|
  {
    if |turns| > 0 {
      OneTurnKeeps(size, guarded, c, turns[0]);
      var (c', ending) := OneTurn(size, guarded, c, turns[0]);
      if ending.Running? {
        SessionKeeps(size, guarded, c', turns[1..]);
      }
    }
  }

  /** In any succession of sessions of either loop, with a crash or a stop signal at any moment, the handler of
      every message below the committed offset came to an end at least once, and handling follows the log. */
  lemma {:induction false} CommittedMeansHandled(size: nat, guarded: bool, c: Cursor, sessions: seq<seq<Turn>>)
    requires AtLeastOnce(size, c) && InLogOrder(c.handled)
    ensures AtLeastOnce(size, Sessions(size, guarded, c, sessions))
      && InLogOrder(Sessions(size, guarded, c, sessions).handled)
    decreases |sessions|
  {
    if |sessions| > 0 {
      var restarted := c.(position := c.committed);
      SessionKeeps(size, guarded, restarted, sessions[0]);
      CommittedMeansHandled(size, guarded, Session(size, guarded, restarted, sessions[0]).0, sessions[1..]);
    }
  }

  // ---------------------------------------------------------------- handled, or only swallowed?

  ghost predicate AllCompleted(c: Cursor) {
    forall o: nat :: o < c.committed ==> o in c.completed
  }

  // This turn commits a message whose handler raised and which no earlier delivery completed.
  predicate Swallows(size: nat, guarded: bool, c: Cursor, t: Turn) {
    && !t.stop && t.poll.Message? && c.position < size && t.death.Alive?
    && guarded && t.raises && c.position !in c.completed
  }

  predicate SessionSwallows(size: nat, guarded: bool, c: Cursor, turns: seq<Turn>)
    decreases |turns|
  {
    |turns| > 0 &&
    (Swallows(size, guarded, c, turns[0]) ||
     (OneTurn(size, guarded, c, turns[0]).1.Running?
         && SessionSwallows(size, guarded, OneTurn(size, guarded, c, turns[0]).0, turns[1..])))
  }

  predicate SessionsSwallow(size: nat, guarded: bool, c: Cursor, sessions: seq<seq<Turn>>)
    decreases |sessions|
  {
    |sessions| > 0 &&
    (SessionSwallows(size, guarded, c.(position := c.committed), sessions[0]) ||
     SessionsSwallow(size, guarded, Session(size, guarded, c.(position := c.committed), sessions[0]).0, sessions[1..]))
  }

  // A message passed over stays so: no later delivery reaches back below the committed offset.
  predicate Lost(c: Cursor, o: nat) {
    o < c.committed <= c.position && o !in c.completed
  }

  lemma {:induction false} LostInSession(size: nat, guarded: bool, c: Cursor, turns: seq<Turn>, o: nat)
    requires Lost(c, o)
    ensures Lost(Session(size, guarded, c, turns).0, o)
    decreases |turns|
  {
    if |turns| > 0 {
      var (c', ending) := OneTurn(size, guarded, c, turns[0]);
      if ending.Running? { LostInSession(size, guarded, c', turns[1..], o); }
    }
  }

  lemma {:induction false} LostForEver(size: nat, guarded: bool, c: Cursor, sessions: seq<seq<Turn>>, o: nat)
    requires Lost(c, o)
    ensures Lost(Sessions(size, guarded, c, sessions), o)
    decreases |sessions|
  {
    if |sessions| > 0 {
      var restarted := c.(position := c.committed);
      LostInSession(size, guarded, restarted, sessions[0], o);
      LostForEver(size, guarded, Session(size, guarded, restarted, sessions[0]).0, sessions[1..], o);
    }
  }

  // Everything taken so far is committed and completed.
  ghost predicate Caught(c: Cursor) {
    c.committed == c.position && AllCompleted(c)
  }

  lemma {:induction false} SessionCompletesIff(size: nat, guarded: bool, c: Cursor, turns: seq<Turn>)
    requires Caught(c)
    ensures var d := Session(size, guarded, c, turns).0;
      d.committed <= d.position && (AllCompleted(d) <==> !SessionSwallows(size, guarded, c, turns))
    decreases |turns|
  {
    if |turns| > 0 {
      var (c', ending) := OneTurn(size, guarded, c, turns[0]);
      if Swallows(size, guarded, c, turns[0]) {
        assert Lost(c', c.position);
        LostInSession(size, guarded, c', turns[1..], c.position);
        PositionStaysAhead(size, guarded, c', turns[1..]);
      } else if ending.Running? {
        SessionCompletesIff(size, guarded, c', turns[1..]);
      }
    }
  }

  lemma {:induction false} PositionStaysAhead(size: nat, guarded: bool, c: Cursor, turns: seq<Turn>)
    requires c.committed <= c.position
    ensures var d := Session(size, guarded, c, turns).0; d.committed <= d.position
    decreases |turns|
  {
    if |turns| > 0 {
      var (c', ending) := OneTurn(size, guarded, c, turns[0]);
      if ending.Running? { PositionStaysAhead(size, guarded, c', turns[1..]); }
    }
  }

  /** Every message below the committed offset was handled without an exception if and only if no turn of any
      session committed a message whose handler had raised: only the publisher's guarded loop can. */
  lemma {:induction false} CommittedMeansCompletedIff(size: nat, guarded: bool, c: Cursor, sessions: seq<seq<Turn>>)
    requires c.committed <= c.position && AllCompleted(c)
    ensures AllCompleted(Sessions(size, guarded, c, sessions)) <==> !SessionsSwallow(size, guarded, c, sessions)
    decreases |sessions|
  {
    if |sessions| > 0 {
      var restarted := c.(position := c.committed);
      var d := Session(size, guarded, restarted, sessions[0]).0;
      SessionCompletesIff(size, guarded, restarted, sessions[0]);
      if AllCompleted(d) {
        CommittedMeansCompletedIff(size, guarded, d, sessions[1..]);
      } else {
        var o: nat :| o < d.committed && o !in d.completed;
        LostForEver(size, guarded, d, sessions[1..], o);
      }
    }
  }

  /** The smallest such session: one message, whose handler raises, and whose offset is committed all the same. */
  lemma PublisherLoopCanSwallow()
    ensures var once := [[Turn(false, Message, Alive, true)]];
      && Sessions(1, true, Cursor(0, 0, [], []), once) == Cursor(1, 1, [0], [])
      && SessionsSwallow(1, true, Cursor(0, 0, [], []), once)
      && Sessions(1, false, Cursor(0, 0, [], []), once) == Cursor(1, 0, [0], [])
  {
  }

  /** So the agent's loop, which dies on an exception, completes whatever it commits. */
  lemma {:induction false} UnguardedLoopsCompleteWhatTheyCommit(size: nat, c: Cursor, sessions: seq<seq<Turn>>)
    requires c.committed <= c.position && AllCompleted(c)
    ensures AllCompleted(Sessions(size, false, c, sessions))
  {
    NothingToSwallow(size, c, sessions);
    CommittedMeansCompletedIff(size, false, c, sessions);
  }

  lemma {:induction false} NothingToSwallow(size: nat, c: Cursor, sessions: seq<seq<Turn>>)
    ensures !SessionsSwallow(size, false, c, sessions)
    decreases |sessions|
  {
    if |sessions| > 0 {
      var restarted := c.(position := c.committed);
      SessionHasNothingToSwallow(size, restarted, sessions[0]);
      NothingToSwallow(size, Session(size, false, restarted, sessions[0]).0, sessions[1..]);
    }
  }

  lemma {:induction false} SessionHasNothingToSwallow(size: nat, c: Cursor, turns: seq<Turn>)
    ensures !SessionSwallows(size, false, c, turns)
    decreases |turns|
  {
    if |turns| > 0 { SessionHasNothingToSwallow(size, OneTurn(size, false, c, turns[0]).0, turns[1..]); }
  }

  // ---------------------------------------------------------------- the stop flag

  /** Once the loop has seen the stop flag nothing is consumed, handled or committed: the session ends at
      the first flagged turn, whatever the later turns would have brought, and each turn before it
      took at most one message. */
  lemma {:induction false} NothingAfterTheStopFlag(size: nat, guarded: bool, c: Cursor, turns: seq<Turn>,
        later: seq<Turn>)
    returns (used: nat)
    requires Session(size, guarded, c, turns).1.Stopped?
    ensures used == Session(size, guarded, c, turns).2
    ensures used < |turns| && turns[used].stop && (forall k :: 0 <= k < used ==> !turns[k].stop)
    ensures Session(size, guarded, c, turns[..used] + [turns[used]] + later) == Session(size, guarded, c, turns)
    ensures c.position <= Session(size, guarded, c, turns).0.position <= c.position + used
    decreases |turns|
  {
    used := Session(size, guarded, c, turns).2;
    if turns[0].stop {
      assert (turns[..used] + [turns[used]] + later)[0] == turns[0];
    } else {
      var (c', _) := OneTurn(size, guarded, c, turns[0]);
      var n := NothingAfterTheStopFlag(size, guarded, c', turns[1..], later);
      var replaced := turns[..used] + [turns[used]] + later;
      assert replaced[0] == turns[0];
      assert replaced[1..] == turns[1..][..n] + [turns[1..][n]] + later;
    }
  }

  // ---------------------------------------------------------------- startup

  datatype Startup = Ready | NoDatabase | PoolTooSmall

  /** check_startup_config: the publisher boots exactly when it has a database and a connection for
      every item it may handle at once. */
  method CheckPublisher(dsn: bool, poolMaxSize: int, itemConcurrency: int) returns (r: Startup)
    ensures r.Ready? <==> dsn && itemConcurrency <= poolMaxSize
    ensures r.NoDatabase? <==> !dsn
  {
    if !dsn {
      return NoDatabase;
    }
    if poolMaxSize < itemConcurrency {
      return PoolTooSmall;
    }
    r := Ready;
  }
}
