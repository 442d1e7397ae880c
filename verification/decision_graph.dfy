/** The decision graph as wired, run over partial state, against the declarative policy it implements. */
module DecisionGraph {
  import opened Models

  const REJECT_THRESHOLD_DAYS := 90
  const AUTO_APPROVE_CEILING := 200.0
  const HUMAN_REVIEW_FLOOR := 2000.0

  // ---------------------------------------------------------------- values

  predicate AtMost(v: Float, c: real) { v.NegInf? || (v.Fin? && v.x <= c) }
  predicate Above(v: Float, c: real) { v.PosInf? || (v.Fin? && v.x > c) }
  predicate AtLeastZero(v: Float) { v.PosInf? || (v.Fin? && v.x >= 0.0) }

  datatype Extracted = Extracted(value: Option<Float>, currency: Option<string>, date: Option<int>)

  datatype Verdict = Verdict(approve: bool, text: string)

  // One call of apply_decision, with its guarded receipts columns.
  datatype Write = Write(status: DecisionStatus, why: Why, value: Option<Float>, date: Option<int>,
      currency: Option<string>)

  datatype WriteResult = Hit | Ghost | WriteRaises

  // Everything outside the graph: the two model calls (None when they raise), the date, whether the row is
  // still there, and whether the database fails on its own account.
  datatype Oracle = Oracle(
    extraction: Option<Extracted>, today: int, verdict: Option<Verdict>, rowExists: bool, writeFails: bool)

  // ---------------------------------------------------------------- what the columns take

  // NUMERIC(14,2): what does not round below 10^12 overflows, an infinity among it.
  const COLUMN_LIMIT := 999_999_999_999.995

  predicate ValueFits(v: Option<Float>) {
    v.Some? ==> v.value.Fin? && 0.0 <= v.value.x < COLUMN_LIMIT
  }

  predicate CurrencyFits(c: Option<string>) {
    c.Some? ==> |c.value| == 3 && forall k :: 0 <= k < 3 ==> 'A' <= c.value[k] <= 'Z'
  }

  predicate DateFits(date: Option<int>, today: int) {
    date.Some? ==> date.value <= today
  }

  // The column type and the CHECK constraints on the receipts columns.
  predicate Fits(w: Write, today: int) {
    ValueFits(w.value) && CurrencyFits(w.currency) && DateFits(w.date, today)
  }

  function Attempted(o: Oracle, w: Write): WriteResult {
    if o.writeFails || (o.rowExists && !Fits(w, o.today)) then WriteRaises
    else if o.rowExists then Hit else Ghost
  }

  function StoredReceipts(w: Write): Receipts {
    Receipts(if w.value.Some? && w.value.value.Fin? then Some(w.value.value.x) else None, w.date, w.currency)
  }

  // ---------------------------------------------------------------- partial state

  datatype State = State(
    extracted: Option<Extracted>,
    missing: Option<seq<string>>,
    requiresJudgment: Option<bool>,
    status: Option<DecisionStatus>,
    why: Option<Why>,
    persisted: Option<bool>)

  const EMPTY_STATE := State(None, None, None, None, None, None)

  // KeyError and TypeError are what reading an unset key or a None field would raise.
  datatype Exc = ModelRaised | DatabaseRaised | KeyError | TypeError

  datatype Result = Done(state: State) | Raised(exc: Exc)

  datatype Node = START | ExtractFields | Validate | ApplyPolicies | Analysis | ApplyAgentDecision | END

  // ---------------------------------------------------------------- the nodes

  function GuardedValue(value: Option<Float>): Option<Float> {
    if value.Some? && AtLeastZero(value.value) then value else None
  }

  method RunExtractFields(o: Oracle, s: State) returns (r: Result)
    ensures r == if o.extraction.None? then Raised(ModelRaised) else Done(s.(extracted := o.extraction))
  {
    if o.extraction.None? {
      return Raised(ModelRaised);
    }
    r := Done(s.(extracted := o.extraction));
  }

  function MissingFields(x: Extracted): seq<string> {
    (if x.value.None? then ["value"] else []) + (if x.date.None? then ["receipts_date"] else [])
  }

  method RunValidate(s: State) returns (r: Result)
    ensures s.extracted.None? ==> r == Raised(KeyError)
    ensures s.extracted.Some? ==>
      var missing := MissingFields(s.extracted.value);
      r == Done(if missing == [] then s.(missing := Some([]))
                else s.(missing := Some(missing), status := Some(HumanReview), why := Some(Unresolved(missing))))
  {
    if s.extracted.None? {
      return Raised(KeyError);
    }
    var x := s.extracted.value;
    var missing: seq<string> := [];
    if x.value.None? {
      missing := missing + ["value"];
    }
    if x.date.None? {
      missing := missing + ["receipts_date"];
    }
    assert missing == MissingFields(x);
    if missing == [] {
      r := Done(s.(missing := Some(missing)));
    } else {
      r := Done(s.(missing := Some(missing), status := Some(HumanReview), why := Some(Unresolved(missing))));
    }
  }

  // The three deterministic rules, rejection first; None sends the request to the guardrail.
  function Rule(value: Float, date: int, today: int): Option<(DecisionStatus, Why)> {
    var daysOld := today - date;
    if daysOld > REJECT_THRESHOLD_DAYS then Some((AutoRejected, StaleReceipt(date, daysOld, today)))
    else if AtMost(value, AUTO_APPROVE_CEILING) then Some((AutoApproved, WithinCeiling(value)))
    else if Above(value, HUMAN_REVIEW_FLOOR) then Some((HumanReview, AboveFloor(value)))
    else None
  }

  method RunApplyPolicies(o: Oracle, s: State) returns (r: Result, writes: seq<Write>)
    ensures s.extracted.None? ==> r == Raised(KeyError) && writes == []
    ensures s.extracted.Some? && MissingFields(s.extracted.value) != [] ==> r == Raised(TypeError) && writes == []
    ensures s.extracted.Some? && MissingFields(s.extracted.value) == [] ==>
      var x := s.extracted.value;
      match Rule(x.value.value, x.date.value, o.today)
      case None => r == Done(s.(requiresJudgment := Some(true))) && writes == []
      case Some((status, why)) =>
        var write := Write(status, why, GuardedValue(x.value), x.date, x.currency);
        && writes == [write]
        && r == if Attempted(o, write).WriteRaises? then Raised(DatabaseRaised)
                else Done(s.(status := Some(status), why := Some(why), persisted := Some(Attempted(o, write).Hit?),
                  requiresJudgment := Some(false)))
  {
    writes := [];
    if s.extracted.None? {
      return Raised(KeyError), writes;
    }
    var x := s.extracted.value;
    if x.date.None? || x.value.None? {
      return Raised(TypeError), writes;
    }
    var value, date := x.value.value, x.date.value;
    var daysOld := o.today - date;
    var status: DecisionStatus;
    var why: Why;
    if daysOld > REJECT_THRESHOLD_DAYS {
      status, why := AutoRejected, StaleReceipt(date, daysOld, o.today);
    } else if AtMost(value, AUTO_APPROVE_CEILING) {
      status, why := AutoApproved, WithinCeiling(value);
    } else if Above(value, HUMAN_REVIEW_FLOOR) {
      status, why := HumanReview, AboveFloor(value);
    } else {
      return Done(s.(requiresJudgment := Some(true))), writes;
    }
    var write := Write(status, why, GuardedValue(x.value), x.date, x.currency);
    writes := [write];
    if Attempted(o, write).WriteRaises? {
      return Raised(DatabaseRaised), writes;
    }
    r := Done(s.(status := Some(status), why := Some(why), persisted := Some(Attempted(o, write).Hit?),
        requiresJudgment := Some(false)));
  }

  method RunAnalysis(o: Oracle, s: State) returns (r: Result)
    ensures r == if s.extracted.None? then Raised(KeyError)
                 else if o.verdict.None? then Raised(ModelRaised)
                 else Done(s.(status := Some(if o.verdict.value.approve then AutoApproved else HumanReview),
                              why := Some(Judged(o.verdict.value.text))))
  {
    if s.extracted.None? {
      return Raised(KeyError);
    }
    if o.verdict.None? {
      return Raised(ModelRaised);
    }
    var status: DecisionStatus := if o.verdict.value.approve then AutoApproved else HumanReview;
    r := Done(s.(status := Some(status), why := Some(Judged(o.verdict.value.text))));
  }

  method RunApplyAgentDecision(o: Oracle, s: State) returns (r: Result, writes: seq<Write>)
    ensures s.status.None? || s.why.None? ==> r == Raised(KeyError) && writes == []
    ensures s.status.Some? && s.why.Some? ==>
      var x := if s.extracted.Some? then s.extracted.value else Extracted(None, None, None);
      var write := Write(s.status.value, s.why.value, GuardedValue(x.value), x.date, x.currency);
      && writes == [write]
      && r == if Attempted(o, write).WriteRaises? then Raised(DatabaseRaised)
              else Done(s.(persisted := Some(Attempted(o, write).Hit?)))
  {
    var x := if s.extracted.Some? then s.extracted.value else Extracted(None, None, None);
    if s.status.None? || s.why.None? {
      return Raised(KeyError), [];
    }
    var write := Write(s.status.value, s.why.value, GuardedValue(x.value), x.date, x.currency);
    writes := [write];
    if Attempted(o, write).WriteRaises? {
      return Raised(DatabaseRaised), writes;
    }
    r := Done(s.(persisted := Some(Attempted(o, write).Hit?)));
  }

  // ---------------------------------------------------------------- the wiring

  datatype Router = RouteAfterValidate | RouteAfterApplyPolicies

  // A plain edge, or a router with the path map of its conditional edge.
  datatype Edge = To(node: Node) | Choose(router: Router, paths: map<string, Node>)

  const EDGES: map<Node, Edge> := map[
    START := To(ExtractFields),
    ExtractFields := To(Validate),
    Validate := Choose(RouteAfterValidate,
        map["apply_policies" := ApplyPolicies, "apply_agent_decision" := ApplyAgentDecision]),
    ApplyPolicies := Choose(RouteAfterApplyPolicies, map["analysis" := Analysis, "__end__" := END]),
    Analysis := To(ApplyAgentDecision),
    ApplyAgentDecision := To(END)]

  // _wire: the graph is built node by node and edge by edge.
  method Wire() returns (nodes: set<Node>, edges: map<Node, Edge>)
    ensures nodes == {ExtractFields, Validate, ApplyPolicies, Analysis, ApplyAgentDecision} && edges == EDGES
  {
    nodes := {};
    nodes := nodes + {ExtractFields};
    nodes := nodes + {Validate};
    nodes := nodes + {ApplyPolicies};
    nodes := nodes + {Analysis};
    nodes := nodes + {ApplyAgentDecision};

    edges := map[];
    edges := edges[START := To(ExtractFields)];
    edges := edges[ExtractFields := To(Validate)];
    edges := edges[Validate := Choose(RouteAfterValidate,
      map["apply_policies" := ApplyPolicies, "apply_agent_decision" := ApplyAgentDecision])];
    edges := edges[ApplyPolicies := Choose(RouteAfterApplyPolicies, map["analysis" := Analysis, "__end__" := END])];
    edges := edges[Analysis := To(ApplyAgentDecision)];
    edges := edges[ApplyAgentDecision := To(END)];
  }

  // A router reads one key; None stands for the KeyError an unset one would raise.
  function Chosen(router: Router, s: State): Option<string> {
    match router
    case RouteAfterValidate =>
      if s.missing.None? then None else Some(if s.missing.value == [] then "apply_policies" else "apply_agent_decision")
    case RouteAfterApplyPolicies =>
      if s.requiresJudgment.None? then None else Some(if s.requiresJudgment.value then "analysis" else "__end__")
  }

  function Route(edge: Edge, s: State): Option<Node> {
    match edge
    case To(node) => Some(node)
    case Choose(router, paths) =>
      var name := Chosen(router, s);
      if name.Some? && name.value in paths then Some(paths[name.value]) else None
  }

  function StepsLeft(node: Node): nat {
    match node
    case START => 6
    case ExtractFields => 5
    case Validate => 4
    case ApplyPolicies => 3
    case Analysis => 2
    case ApplyAgentDecision => 1
    case END => 0
  }

  function Targets(edge: Edge): set<Node> {
    match edge
    case To(node) => {node}
    case Choose(_, paths) => paths.Values
  }

  // One edge leads from `a` to `b`.
  predicate Leads(a: Node, b: Node) { a in EDGES && b in Targets(EDGES[a]) }

  lemma TargetsOf(a: Node, b: Node)
    ensures Leads(a, b) <==> match a
      case START => b == ExtractFields
      case ExtractFields => b == Validate
      case Validate => b == ApplyPolicies || b == ApplyAgentDecision
      case ApplyPolicies => b == Analysis || b == END
      case Analysis => b == ApplyAgentDecision
      case ApplyAgentDecision => b == END
      case END => false
  {
    if a.Validate? {
      var paths := EDGES[a].paths;
      assert "apply_policies" in paths && "apply_agent_decision" in paths;
      assert paths["apply_policies"] == ApplyPolicies && paths["apply_agent_decision"] == ApplyAgentDecision;
    } else if a.ApplyPolicies? {
      var paths := EDGES[a].paths;
      assert "analysis" in paths && "__end__" in paths;
      assert paths["analysis"] == Analysis && paths["__end__"] == END;
    }
  }

  predicate IsWalk(path: seq<Node>) {
    path != [] && (|path| > 1 ==> Leads(path[0], path[1]) && IsWalk(path[1..]))
  }

  function Last(path: seq<Node>): Node
    requires path != []
  {
    path[|path| - 1]
  }

  predicate GoesOn(node: Node) { exists next: Node :: Leads(node, next) }

  /** Every walk along the wired edges is short, and until it has come to END it can go on: so END is reached
      from every node, on every path. */
  lemma {:induction false} EveryWalkEnds(path: seq<Node>)
    requires IsWalk(path)
    ensures |path| <= StepsLeft(path[0]) + 1
    ensures Last(path) == END || GoesOn(Last(path))
    decreases |path|
  {
    if |path| > 1 {
      TargetsOf(path[0], path[1]);
      EveryWalkEnds(path[1..]);
    } else if path[0] != END {
      var next := match path[0]
        case START => ExtractFields
        case ExtractFields => Validate
        case Validate => ApplyPolicies
        case ApplyPolicies => Analysis
        case Analysis => ApplyAgentDecision
        case ApplyAgentDecision => END;
      TargetsOf(path[0], next);
      assert Leads(path[0], next);
    }
  }

  /** The write nodes are entered only from the nodes that decide, judgment only from the policies, and whatever
      a router answers is in its path map. */
  lemma EnteredOnlyFrom(a: Node)
    ensures Leads(a, ApplyAgentDecision) <==> a == Validate || a == Analysis
    ensures Leads(a, ApplyPolicies) <==> a == Validate
    ensures Leads(a, Analysis) <==> a == ApplyPolicies
    ensures Leads(a, END) <==> a == ApplyPolicies || a == ApplyAgentDecision
    ensures forall s: State :: a in EDGES && EDGES[a].Choose? ==>
      Chosen(EDGES[a].router, s).None? || Chosen(EDGES[a].router, s).value in EDGES[a].paths
  {
    TargetsOf(a, ApplyAgentDecision);
    TargetsOf(a, ApplyPolicies);
    TargetsOf(a, Analysis);
    TargetsOf(a, END);
  }

  // ---------------------------------------------------------------- the declarative policy

  predicate Complete(x: Extracted) { x.value.Some? && x.date.Some? }

  // The guardrail's zone: complete, not stale, and no threshold fires. NaN always lands here.
  predicate NeedsJudgment(x: Extracted, today: int) {
    Complete(x) && today - x.date.value <= 90 && !AtMost(x.value.value, 200.0) && !Above(x.value.value, 2000.0)
  }

  function PolicyDecision(x: Extracted, today: int, v: Verdict): (DecisionStatus, Why) {
    if !Complete(x) then (HumanReview, Unresolved(MissingFields(x)))
    else if today - x.date.value > 90 then (AutoRejected, StaleReceipt(x.date.value, today - x.date.value, today))
    else if NeedsJudgment(x, today) then (if v.approve then AutoApproved else HumanReview, Judged(v.text))
    else if AtMost(x.value.value, 200.0) then (AutoApproved, WithinCeiling(x.value.value))
    else (HumanReview, AboveFloor(x.value.value))
  }

  const NO_VERDICT := Verdict(false, "")

  function VerdictOr(o: Oracle): Verdict {
    if o.verdict.Some? then o.verdict.value else NO_VERDICT
  }

  function PolicyWrite(o: Oracle): Write
    requires o.extraction.Some?
  {
    var x := o.extraction.value;
    var (status, why) := PolicyDecision(x, o.today, VerdictOr(o));
    Write(status, why, GuardedValue(x.value), x.date, x.currency)
  }

  // What the run must come to: which exception, or which decision persisted or not.
  function PolicyFailure(o: Oracle): Option<Exc> {
    if o.extraction.None? then Some(ModelRaised)
    else if NeedsJudgment(o.extraction.value, o.today) && o.verdict.None? then Some(ModelRaised)
    else if Attempted(o, PolicyWrite(o)).WriteRaises? then Some(DatabaseRaised)
    else None
  }

  // ---------------------------------------------------------------- the run

  predicate Extracts(o: Oracle, s: State) {
    o.extraction.Some? && s.extracted == o.extraction
  }

  predicate Untouched(writes: seq<Write>, judged: nat, decided: nat) {
    writes == [] && judged == 0 && decided == 0
  }

  predicate HoldsDecision(o: Oracle, s: State)
    requires o.extraction.Some?
  {
    s.status == Some(PolicyWrite(o).status) && s.why == Some(PolicyWrite(o).why)
  }

  // Where the interpreter can be, and what it must have put into the state by then.
  predicate Reached(o: Oracle, node: Node, s: State, writes: seq<Write>, judged: nat, decided: nat) {
    if node.START? || node.ExtractFields? then s == EMPTY_STATE && Untouched(writes, judged, decided)
    else if !Extracts(o, s) then false
    else if node.Validate? then s == EMPTY_STATE.(extracted := o.extraction) && Untouched(writes, judged, decided)
    else if node.ApplyPolicies? then
      Complete(o.extraction.value) && Untouched(writes, judged, decided)
      && s == EMPTY_STATE.(extracted := o.extraction, missing := Some([]))
    else if node.Analysis? then NeedsJudgment(o.extraction.value, o.today) && s.status.None?
      && Untouched(writes, judged, decided)
    else if node.ApplyAgentDecision? then
      && HoldsDecision(o, s) && writes == [] && decided == 1
      && (if Complete(o.extraction.value) then NeedsJudgment(o.extraction.value, o.today) && o.verdict.Some?
        && judged == 1
          else judged == 0)
    else
      && HoldsDecision(o, s) && s.persisted == Some(o.rowExists) && PolicyFailure(o).None?
      && writes == [PolicyWrite(o)] && decided == 1
      && judged == (if NeedsJudgment(o.extraction.value, o.today) then 1 else 0)
  }

  /** decide: run the nodes along the edges. The run always ends; it raises exactly when a model call it
      needs or its one write raises, never because a key was unset; it moves the status once, calls
      apply_decision once with the policy's own status, reason and guarded columns, and consults the
      guardrail exactly in the guardrail's zone. */
  method Run(o: Oracle) returns (r: Result, writes: seq<Write>, judged: nat, decided: nat)
    ensures r.Raised? <==> PolicyFailure(o).Some?
    ensures r.Raised? ==> r.exc == PolicyFailure(o).value
    ensures r.Done? ==> r.state.status == Some(PolicyWrite(o).status) && r.state.why == Some(PolicyWrite(o).why)
    ensures r.Done? ==> r.state.persisted == Some(o.rowExists) && decided == 1
    ensures writes == if PolicyFailure(o) == Some(ModelRaised) then [] else [PolicyWrite(o)]
    ensures judged == if o.extraction.Some? && NeedsJudgment(o.extraction.value, o.today) then 1 else 0
  {
    var nodes, edges := Wire();
    var node, s := START, EMPTY_STATE;
    writes, judged, decided := [], 0, 0;
    while node != END
      invariant Reached(o, node, s, writes, judged, decided)
      decreases StepsLeft(node)
    {
      var before := s.status;
      match node {
        case START => r := Done(s);
        case ExtractFields => r := RunExtractFields(o, s);
        case Validate => r := RunValidate(s);
        case ApplyPolicies => r, writes := RunApplyPolicies(o, s);
        case Analysis =>
          judged := judged + 1;
          r := RunAnalysis(o, s);
        case ApplyAgentDecision => r, writes := RunApplyAgentDecision(o, s);
      }
      if r.Raised? {
        return;
      }
      s := r.state;
      decided := decided + if s.status != before then 1 else 0;
      var next := Route(edges[node], s);
      if next.None? {
        return Raised(KeyError), writes, judged, decided;
      }
      node := next.value;
    }
    r := Done(s);
  }

  /** The thresholds themselves, for every complete extraction: a receipt older than 90 days is rejected
      whatever its value; NaN is judged, never decided; and nothing above 2000 is ever auto-approved. */
  lemma PolicyBoundaries(x: Extracted, today: int, v: Verdict)
    requires Complete(x)
    ensures PolicyDecision(x, today, v).0 == AutoRejected <==> today - x.date.value > 90
    ensures x.value.value.NaN? && today - x.date.value <= 90 ==> NeedsJudgment(x, today)
    ensures PolicyDecision(x, today, v).0 == AutoApproved ==> !Above(x.value.value, 2000.0)
    ensures PolicyDecision(x, today, v).0 == AutoApproved && !AtMost(x.value.value, 200.0)
      ==> v.approve && NeedsJudgment(x, today)
  {
  }

  /** What the guard lets through and the column still refuses: exactly an infinity and an amount that does not
      round below 10^12. Such a decision raises, and ends with a human like any other failure. */
  lemma GuardedValueFitsIff(v: Option<Float>)
    ensures ValueFits(GuardedValue(v)) <==> v != Some(PosInf) && (v.Some? && v.value.Fin? ==> v.value.x < COLUMN_LIMIT)
  {
  }

  // ---------------------------------------------------------------- the policy in numbers

  /** Every complete extraction, by its numbers: older than 90 days is rejected, with the age; otherwise up to 200 is
      approved and above 2000 held, each with its amount and without asking the guardrail, and what lies between,
      with NaN, is the guardrail's to decide, with its text. */
  lemma PolicyInNumbers(value: Float, currency: Option<string>, date: int, today: int, v: Verdict)
    ensures var x := Extracted(Some(value), currency, Some(date));
      var judged: (DecisionStatus, Why) := (if v.approve then AutoApproved else HumanReview, Judged(v.text));
      PolicyDecision(x, today, v) ==
        if today - date > 90 then (AutoRejected, StaleReceipt(date, today - date, today))
        else match value
          case NaN => judged
          case NegInf => (AutoApproved, WithinCeiling(NegInf))
          case PosInf => (HumanReview, AboveFloor(PosInf))
          case Fin(n) =>
            if n <= 200.0 then (AutoApproved, WithinCeiling(Fin(n)))
            else if n > 2000.0 then (HumanReview, AboveFloor(Fin(n)))
            else judged
    ensures NeedsJudgment(Extracted(Some(value), currency, Some(date)), today) <==>
      today - date <= 90 && (value.NaN? || (value.Fin? && 200.0 < value.x <= 2000.0))
  {
  }

  /** Every incomplete one: held, for exactly the fields that are not there, and never judged. */
  lemma IncompleteIsHeld(x: Extracted, today: int, v: Verdict)
    requires x.value.None? || x.date.None?
    ensures PolicyDecision(x, today, v) == (HumanReview, Unresolved(
      if x.value.Some? then ["receipts_date"] else if x.date.Some? then ["value"] else ["value", "receipts_date"]))
    ensures !NeedsJudgment(x, today)
  {
    assert MissingFields(x) ==
      if x.value.Some? then ["receipts_date"] else if x.date.Some? then ["value"] else ["value", "receipts_date"];
  }

  /** The row's columns come from the extraction alone: a finite amount that is not negative, the date, the currency. */
  lemma ColumnsFromTheExtraction(o: Oracle)
    requires o.extraction.Some?
    ensures var x := o.extraction.value;
      StoredReceipts(PolicyWrite(o)) == Receipts(
        if x.value.Some? && x.value.value.Fin? && x.value.value.x >= 0.0 then Some(x.value.value.x) else None,
        x.date, x.currency)
  {
  }

  // What the columns refuse of an extraction.
  predicate Refused(x: Extracted, today: int) {
    || x.value == Some(PosInf)
    || (x.value.Some? && x.value.value.Fin? && x.value.value.x >= 999_999_999_999.995)
    || (x.currency.Some? && !(|x.currency.value| == 3 && forall c :: c in x.currency.value ==> 'A' <= c <= 'Z'))
    || (x.date.Some? && x.date.value > today)
  }

  lemma RefusedIsWhatDoesNotFit(o: Oracle)
    requires o.extraction.Some?
    ensures Fits(PolicyWrite(o), o.today) <==> !Refused(o.extraction.value, o.today)
  {
    var c := o.extraction.value.currency;
    if c.Some? && |c.value| == 3 {
      assert forall k :: 0 <= k < 3 ==> c.value[k] in c.value;
    }
  }

  /** How the graph fails, exactly: at a model it needs, or at the write, because the database fails or because the
      row is there and its columns refuse what was extracted. */
  lemma GraphFailsIff(o: Oracle)
    ensures var judge := o.extraction.Some? && NeedsJudgment(o.extraction.value, o.today);
      var stuck := o.extraction.None? || (judge && o.verdict.None?);
      PolicyFailure(o) ==
        if stuck then Some(ModelRaised)
        else if o.writeFails || (o.rowExists && Refused(o.extraction.value, o.today)) then Some(DatabaseRaised)
        else None
  {
    if o.extraction.Some? {
      RefusedIsWhatDoesNotFit(o);
    }
  }
}
