/** The human-readable error history: one line per attempt, whatever text the errors carry. */
module HistoryPrinter {
  import opened Decimal
  import opened Models
  import Protocol
  import Repository
  import HistoryShape
  import Invariants

  // ---------------------------------------------------------------- white space and line breaks

  // str.isspace
  predicate IsWhite(c: char) {
    var n := c as int;
    0x09 <= n <= 0x0D || 0x1C <= n <= 0x20 || n == 0x85 || n == 0xA0 || n == 0x1680 || 0x2000 <= n <= 0x200A
    || n == 0x2028 || n == 0x2029 || n == 0x202F || n == 0x205F || n == 0x3000
  }

  // The line boundaries of str.splitlines.
  predicate IsBreak(c: char) {
    var n := c as int;
    0x0A <= n <= 0x0D || 0x1C <= n <= 0x1E || n == 0x85 || n == 0x2028 || n == 0x2029
  }

  // What splits words, and what ends lines: the characters of the interpreter's tables.
  lemma WhiteAndBreaks(c: char)
    ensures IsWhite(c) <==> c as int in {
      0x09, 0x0A, 0x0B, 0x0C, 0x0D, 0x1C, 0x1D, 0x1E, 0x1F, 0x20, 0x85, 0xA0, 0x1680, 0x2000, 0x2001, 0x2002, 0x2003,
      0x2004, 0x2005, 0x2006, 0x2007, 0x2008, 0x2009, 0x200A, 0x2028, 0x2029, 0x202F, 0x205F, 0x3000}
    ensures IsBreak(c) <==> c as int in {0x0A, 0x0B, 0x0C, 0x0D, 0x1C, 0x1D, 0x1E, 0x85, 0x2028, 0x2029}
  {
  }

  predicate OnOneLine(s: string) {
    forall k :: 0 <= k < |s| ==> !IsBreak(s[k])
  }

  // ---------------------------------------------------------------- " ".join(value.split())

  // The first `n` characters are not white space, and the next one, if any, is.
  predicate WordEnds(s: string, n: nat) {
    n <= |s| && (forall k :: 0 <= k < n ==> !IsWhite(s[k])) && (n < |s| ==> IsWhite(s[n]))
  }

  function WordLength(s: string): (n: nat)
    ensures WordEnds(s, n)
    ensures forall m: nat :: WordEnds(s, m) ==> m == n
  {
    if s == "" || IsWhite(s[0]) then 0 else 1 + WordLength(s[1..])
  }

  function Words(s: string): (ws: seq<string>)
    ensures forall k :: 0 <= k < |ws| ==> IsWord(ws[k])
    decreases |s|
  {
    if s == "" then []
    else if IsWhite(s[0]) then Words(s[1..])
    else
      var n := WordLength(s);
      [s[..n]] + Words(s[n..])
  }

  predicate IsWord(w: string) {
    w != "" && forall k :: 0 <= k < |w| ==> !IsWhite(w[k])
  }

  function Joined(ws: seq<string>): string {
    if ws == [] then "" else if |ws| == 1 then ws[0] else ws[0] + " " + Joined(ws[1..])
  }

  /** _one_line */
  function OneLine(value: string): string { Joined(Words(value)) }

  lemma WordThen(w: string, t: string)
    requires IsWord(w) && (t == "" || IsWhite(t[0]))
    ensures Words(w + t) == [w] + Words(t)
  {
    var s := w + t;
    assert WordEnds(s, |w|);
    assert s[0] == w[0] && s[..|w|] == w && s[|w|..] == t;
  }

  lemma {:induction false} WordsOfJoined(ws: seq<string>)
    requires forall k :: 0 <= k < |ws| ==> IsWord(ws[k])
    ensures Words(Joined(ws)) == ws
  {
    if |ws| == 1 {
      WordThen(ws[0], "");
      assert ws[0] + "" == ws[0] && ws == [ws[0]];
    } else if |ws| > 1 {
      var t := " " + Joined(ws[1..]);
      assert Joined(ws) == ws[0] + t;
      assert t[1..] == Joined(ws[1..]);
      WordThen(ws[0], t);
      WordsOfJoined(ws[1..]);
    }
  }

  /** Words are what white space separates: at any white character a text falls apart into the words before and after
      it. */
  lemma {:induction false} WordsFallApart(a: string, c: char, b: string)
    requires IsWhite(c)
    ensures Words(a + ([c] + b)) == Words(a) + Words(b)
    decreases |a|
  {
    var t := [c] + b;
    if a == "" {
      assert a + t == t && t[1..] == b;
    } else if IsWhite(a[0]) {
      assert (a + t)[1..] == a[1..] + t;
      WordsFallApart(a[1..], c, b);
    } else {
      var n := WordLength(a);
      var word, rest := a[..n], a[n..];
      assert a == word + rest && a + t == word + (rest + t);
      assert n > 0 by { assert !WordEnds(a, 0); }
      WordThen(word, rest + t);
      WordThen(word, rest);
      WordsFallApart(rest, c, b);
    }
  }

  lemma {:induction false} JoinedIsOnOneLine(ws: seq<string>)
    requires forall k :: 0 <= k < |ws| ==> IsWord(ws[k])
    ensures forall k :: 0 <= k < |Joined(ws)| ==> IsWhite(Joined(ws)[k]) ==> Joined(ws)[k] == ' '
  {
    if |ws| > 1 { JoinedIsOnOneLine(ws[1..]); }
  }

  /** Flattening keeps every word in order, leaves no white space but single spaces, and does nothing twice. */
  lemma OneLineKeepsTheWords(value: string)
    ensures Words(OneLine(value)) == Words(value)
    ensures OneLine(OneLine(value)) == OneLine(value)
    ensures OnOneLine(OneLine(value))
  {
    WordsOfJoined(Words(value));
    JoinedIsOnOneLine(Words(value));
  }

  // ---------------------------------------------------------------- render_history

  function HeaderText(header: Header): string {
    match header
    case RetryCeilingReached => "Retry ceiling reached"
    case DecisionStageFailure => "Decision-stage failure"
  }

  function StageText(stage: Stage): string {
    match stage
    case DbInsert => "db-insert"
    case Publish => "publish"
    case Resolve => "resolve"
    case Decide => "decide"
  }

  function MessagePart(e: AttemptError, max: nat): string { Upto(OneLine(e.cause.message), max) }

  function Line(number: string, at: string, stage: string, errorType: string, message: string): string {
    "attempt " + number + " at " + at + " [" + stage + "] " + errorType + ": " + message
  }

  function AttemptLine(e: AttemptError, max: nat): string {
    Line(IntText(e.attempt), e.cause.occurredAt, OneLine(StageText(e.stage)), OneLine(e.cause.errorType),
        MessagePart(e, max))
  }

  function AttemptLines(errors: seq<AttemptError>, max: nat): (ls: seq<string>)
    ensures |ls| == |errors|
  {
    if errors == [] then [] else [AttemptLine(errors[0], max)] + AttemptLines(errors[1..], max)
  }

  // "\n".join
  function JoinedLines(ls: seq<string>): string {
    if ls == [] then "" else if |ls| == 1 then ls[0] else ls[0] + "\n" + JoinedLines(ls[1..])
  }

  function TitleLine(header: Header, count: nat): string {
    HeaderText(header) + " after " + NatText(count) + " failed attempts:"
  }

  function RenderHistory(header: Header, errors: seq<AttemptError>, max: nat): string {
    if errors == [] then HeaderText(header) + ", but the message carried no error detail."
    else JoinedLines([TitleLine(header, |errors|)] + AttemptLines(errors, max))
  }

  // ---------------------------------------------------------------- the reviewer's side: lines, and what each one says

  predicate LineEnds(s: string, n: nat) {
    n <= |s| && OnOneLine(s[..n]) && (n < |s| ==> IsBreak(s[n]))
  }

  function LineLength(s: string): (n: nat)
    ensures LineEnds(s, n)
    ensures forall m: nat :: LineEnds(s, m) ==> m == n
  {
    if s == "" || IsBreak(s[0]) then 0 else 1 + LineLength(s[1..])
  }

  function Lines(s: string): seq<string>
    decreases |s|
  {
    var n := LineLength(s);
    if n == |s| then [s] else [s[..n]] + Lines(s[n + 1..])
  }

  datatype Reading = NotAnAttempt | Attempt(number: int, at: string, stage: string)

  // What stands between `prefix` and the next `stop`, and the text from that stop on.
  function Cut(s: string, prefix: string, stop: char): Option<(string, string)> {
    if !(prefix <= s) then None
    else
      var body := s[|prefix|..];
      var n := Before(body, stop);
      if n == |body| then None else Some((body[..n], body[n..]))
  }

  predicate FirstAt(s: string, stop: char, n: nat) {
    n <= |s| && (forall k :: 0 <= k < n ==> s[k] != stop) && (n < |s| ==> s[n] == stop)
  }

  function Before(s: string, stop: char): (n: nat)
    ensures FirstAt(s, stop, n)
    ensures forall m: nat :: FirstAt(s, stop, m) ==> m == n
  {
    if s == "" || s[0] == stop then 0 else 1 + Before(s[1..], stop)
  }

  function ReadLine(line: string): Reading {
    match Cut(line, "attempt ", ' ')
    case None => NotAnAttempt
    case Some((number, rest)) =>
      match Cut(rest, " at ", ' ')
      case None => NotAnAttempt
      case Some((at, rest')) =>
        match Cut(rest', " [", ']')
        case None => NotAnAttempt
        case Some((stage, _)) => Attempt(IntOf(number), at, stage)
  }

  lemma CutOf(prefix: string, body: string, rest: string, stop: char)
    requires stop !in body && rest != "" && rest[0] == stop
    ensures Cut(prefix + (body + rest), prefix, stop) == Some((body, rest))
  {
    var s := prefix + (body + rest);
    assert s[|prefix|..] == body + rest;
    assert FirstAt(body + rest, stop, |body|);
    assert (body + rest)[..|body|] == body && (body + rest)[|body|..] == rest;
  }

  lemma SingleWord(w: string)
    requires IsWord(w)
    ensures OneLine(w) == w
  {
    WordsOfJoined([w]);
  }

  lemma StageWord(stage: Stage)
    ensures IsWord(StageText(stage)) && ']' !in StageText(stage)
  {
  }

  lemma LineReads(number: string, at: string, stage: string, errorType: string, message: string)
    requires ' ' !in number && ' ' !in at && ']' !in stage
    ensures ReadLine(Line(number, at, stage, errorType, message)) == Attempt(IntOf(number), at, stage)
  {
    var r3 := "] " + errorType + ": " + message;
    var r2 := " [" + (stage + r3);
    var r1 := " at " + (at + r2);
    Regroup("attempt ", number, " at ", at, " [", stage, "] ", errorType, ": ", message);
    CutOf("attempt ", number, r1, ' ');
    CutOf(" at ", at, r2, ' ');
    CutOf(" [", stage, r3, ']');
  }

  lemma Regroup(a: string, n: string, b: string, t: string, c: string, s: string, d: string, y: string, e: string,
        m: string)
    ensures a + n + b + t + c + s + d + y + e + m == a + (n + (b + (t + (c + (s + (d + y + e + m))))))
  {
  }

  /** However odd the error's own text, its line reads back as its number, its time and its stage. */
  lemma AttemptLineReads(e: AttemptError, max: nat)
    ensures ReadLine(AttemptLine(e, max)) == Attempt(e.attempt, e.cause.occurredAt, StageText(e.stage))
  {
    StageWord(e.stage);
    SingleWord(StageText(e.stage));
    NoSpaceInInt(e.attempt);
    IntRoundTrip(e.attempt);
    LineReads(IntText(e.attempt), e.cause.occurredAt, OneLine(StageText(e.stage)), OneLine(e.cause.errorType),
        MessagePart(e, max));
  }

  lemma NoSpaceInInt(n: int)
    ensures forall k :: 0 <= k < |IntText(n)| ==> IntText(n)[k] == '-' || IsDigit(IntText(n)[k])
  {
  }

  lemma Concat(a: string, b: string)
    requires OnOneLine(a) && OnOneLine(b)
    ensures OnOneLine(a + b)
  {
  }

  lemma LineIsOne(number: string, at: string, stage: string, errorType: string, message: string)
    requires OnOneLine(number) && OnOneLine(at) && OnOneLine(stage) && OnOneLine(errorType) && OnOneLine(message)
    ensures OnOneLine(Line(number, at, stage, errorType, message))
  {
    assert OnOneLine("attempt ") && OnOneLine(" at ") && OnOneLine(" [") && OnOneLine("] ") && OnOneLine(": ");
    var s := "attempt " + number;
    Concat(s, " at ");
    Concat(s + " at ", at);
    Concat(s + " at " + at, " [");
    Concat(s + " at " + at + " [", stage);
    var r := s + " at " + at + " [" + stage;
    Concat(r, "] ");
    Concat(r + "] ", errorType);
    Concat(r + "] " + errorType, ": ");
    Concat(r + "] " + errorType + ": ", message);
  }

  lemma AttemptLineIsOne(e: AttemptError, max: nat)
    ensures OnOneLine(AttemptLine(e, max))
  {
    OneLineKeepsTheWords(StageText(e.stage));
    OneLineKeepsTheWords(e.cause.errorType);
    OneLineKeepsTheWords(e.cause.message);
    NoSpaceInInt(e.attempt);
    LineIsOne(IntText(e.attempt), e.cause.occurredAt, OneLine(StageText(e.stage)), OneLine(e.cause.errorType),
        MessagePart(e, max));
  }

  lemma {:induction false} LinesOfJoined(ls: seq<string>)
    requires ls != [] && forall k :: 0 <= k < |ls| ==> OnOneLine(ls[k])
    ensures Lines(JoinedLines(ls)) == ls
  {
    var s := JoinedLines(ls);
    var n := |ls[0]|;
    if |ls| == 1 {
      assert ls == [s] && s[..n] == s;
      assert LineEnds(s, n);
    } else {
      assert s == ls[0] + ("\n" + JoinedLines(ls[1..]));
      assert s[..n] == ls[0] && s[n] == '\n' && s[n + 1..] == JoinedLines(ls[1..]);
      assert LineEnds(s, n);
      LinesOfJoined(ls[1..]);
    }
  }

  lemma {:induction false} AttemptLinesAt(errors: seq<AttemptError>, max: nat, i: nat)
    requires i < |errors|
    ensures AttemptLines(errors, max)[i] == AttemptLine(errors[i], max)
  {
    if i > 0 { AttemptLinesAt(errors[1..], max, i - 1); }
  }

  lemma HeaderWords(header: Header)
    ensures OnOneLine(HeaderText(header)) && HeaderText(header) != "" && HeaderText(header)[0] != 'a'
  {
  }

  lemma TitleLiterals()
    ensures OnOneLine(" after ") && OnOneLine(" failed attempts:")
      && OnOneLine(", but the message carried no error detail.")
  {
  }

  lemma NotFromA(s: string)
    requires s != "" && s[0] != 'a'
    ensures ReadLine(s) == NotAnAttempt
  {
    var prefix := "attempt ";
    assert prefix[0] == 'a';
  }

  lemma TitleIsOneLine(header: Header, count: nat)
    ensures OnOneLine(TitleLine(header, count)) && ReadLine(TitleLine(header, count)) == NotAnAttempt
  {
    HeaderWords(header);
    TitleLiterals();
    NoSpaceInInt(count);
    var h := HeaderText(header);
    Concat(h, " after ");
    Concat(h + " after ", NatText(count));
    Concat(h + " after " + NatText(count), " failed attempts:");
    NotFromA(TitleLine(header, count));
  }

  function Told(errorType: string, message: string): string { "] " + errorType + ": " + message }

  lemma LineTells(number: string, at: string, stage: string, errorType: string, message: string)
    ensures EndsWith(Line(number, at, stage, errorType, message), Told(errorType, message))
  {
    var front := "attempt " + number + " at " + at + " [" + stage;
    var line := Line(number, at, stage, errorType, message);
    assert line == front + Told(errorType, message) by {
      Joins(front, "] ", errorType, ": ", message);
    }
    assert line[|front|..] == Told(errorType, message);
  }

  lemma Joins(front: string, a: string, b: string, c: string, d: string)
    ensures front + a + b + c + d == front + (a + b + c + d)
  {
  }

  // What a reviewer can rely on in the line of one attempt: it ends with the error's type and the whole flattened
  // message, or as much of it as fits.
  predicate Faithful(line: string, e: AttemptError, max: nat) {
    var message := OneLine(e.cause.message);
    && ReadLine(line) == Attempt(e.attempt, e.cause.occurredAt, StageText(e.stage))
    && EndsWith(line, Told(OneLine(e.cause.errorType), if |message| <= max then message else message[..max]))
  }

  predicate EndsWith(s: string, end: string) { |s| >= |end| && s[|s| - |end|..] == end }

  lemma AttemptLineIsFaithful(e: AttemptError, max: nat)
    ensures Faithful(AttemptLine(e, max), e, max)
  {
    AttemptLineReads(e, max);
    assert MessagePart(e, max) ==
      if |OneLine(e.cause.message)| <= max then OneLine(e.cause.message) else OneLine(e.cause.message)[..max];
    LineTells(IntText(e.attempt), e.cause.occurredAt, OneLine(StageText(e.stage)), OneLine(e.cause.errorType),
        MessagePart(e, max));
  }

  lemma LinesOfHistory(header: Header, errors: seq<AttemptError>, max: nat)
    requires errors != []
    ensures Lines(RenderHistory(header, errors, max)) == [TitleLine(header, |errors|)] + AttemptLines(errors, max)
  {
    var ls := [TitleLine(header, |errors|)] + AttemptLines(errors, max);
    TitleIsOneLine(header, |errors|);
    forall k | 0 <= k < |ls| ensures OnOneLine(ls[k]) {
      if k > 0 {
        AttemptLinesAt(errors, max, k - 1);
        AttemptLineIsOne(errors[k - 1], max);
      }
    }
    LinesOfJoined(ls);
  }

  /** The words the system puts in itself: the four stages, the two titles and their counts. */
  lemma OwnWords(count: nat)
    ensures StageText(DbInsert) == "db-insert" && StageText(Stage.Publish) == "publish"
    ensures StageText(Resolve) == "resolve" && StageText(Stage.Decide) == "decide"
    ensures TitleLine(RetryCeilingReached, count) == "Retry ceiling reached" + " after " + NatText(count)
      + " failed attempts:"
    ensures TitleLine(DecisionStageFailure, count)
         == "Decision-stage failure" + " after " + NatText(count) + " failed attempts:"
    ensures RenderHistory(RetryCeilingReached, [], count)
         == "Retry ceiling reached" + ", but the message carried no error detail."
  {
  }

  /** An attempt's whole line, for an error whose texts are already on one line. */
  lemma PlainAttempt(e: AttemptError, max: nat)
    requires OneLine(e.cause.errorType) == e.cause.errorType && OneLine(e.cause.message) == e.cause.message
    requires |e.cause.message| <= max
    ensures AttemptLine(e, max) == "attempt " + IntText(e.attempt) + " at " + e.cause.occurredAt + " ["
      + (match e.stage
         case DbInsert => "db-insert" case Publish => "publish" case Resolve => "resolve" case Decide => "decide")
      + "] " + e.cause.errorType + ": " + e.cause.message
  {
    StageWord(e.stage);
    SingleWord(StageText(e.stage));
  }

  /** No error text can add, remove or rewrite a line: the record has one title and exactly one faithful line per
      attempt. */
  lemma HistoryCannotBeForged(header: Header, errors: seq<AttemptError>, max: nat)
    requires errors != []
    ensures var ls := Lines(RenderHistory(header, errors, max));
      && |ls| == |errors| + 1
      && ls[0] == TitleLine(header, |errors|) && ReadLine(ls[0]) == NotAnAttempt
      && forall i :: 0 <= i < |errors| ==> Faithful(ls[i + 1], errors[i], max)
  {
    LinesOfHistory(header, errors, max);
    TitleIsOneLine(header, |errors|);
    forall i | 0 <= i < |errors| ensures Faithful(AttemptLines(errors, max)[i], errors[i], max) {
      AttemptLinesAt(errors, max, i);
      AttemptLineIsFaithful(errors[i], max);
    }
  }

  /** Without a history the sentence claims none: one line that reads as no attempt. */
  lemma NoHistoryNoAttempts(header: Header, max: nat)
    ensures Lines(RenderHistory(header, [], max)) == [RenderHistory(header, [], max)]
    ensures ReadLine(RenderHistory(header, [], max)) == NotAnAttempt
  {
    var s := RenderHistory(header, [], max);
    HeaderWords(header);
    TitleLiterals();
    Concat(HeaderText(header), ", but the message carried no error detail.");
    NotFromA(s);
    assert s[..|s|] == s;
    assert LineEnds(s, |s|);
  }

  lemma NumberedLines(reason: Reason, published: bool, max: nat)
    requires reason.History? && HistoryShape.ReasonShape(reason, published)
    ensures var ls := Lines(RenderHistory(reason.header, reason.errors, max)); NumberedNarrative(ls, reason)
  {
    NumberedFromOne(reason, published);
    EveryLineReads(reason.header, reason.errors, max);
    ReadsAsNarrative(Lines(RenderHistory(reason.header, reason.errors, max)), reason);
  }

  // Line i reads as the i-th attempt.
  predicate LineIs(ls: seq<string>, errors: seq<AttemptError>, i: nat) {
    1 <= i < |ls| && i <= |errors| &&
    ReadLine(ls[i]) == Attempt(errors[i - 1].attempt, errors[i - 1].cause.occurredAt, StageText(errors[i - 1].stage))
  }

  lemma ReadsAsNarrative(ls: seq<string>, reason: Reason)
    requires reason.History? && 1 <= |reason.errors| <= 7 && |ls| == |reason.errors| + 1
    requires forall k :: 0 <= k < |reason.errors| ==> reason.errors[k].attempt == k + 1
    requires reason.header.DecisionStageFailure? ==> reason.errors[|reason.errors| - 1].stage.Decide?
    requires forall i: nat :: 1 <= i < |ls| ==> LineIs(ls, reason.errors, i)
    ensures NumberedNarrative(ls, reason)
  {
    forall i | 1 <= i < |ls| ensures ReadLine(ls[i])
        == Attempt(i, reason.errors[i - 1].cause.occurredAt, StageText(reason.errors[i - 1].stage)) {
      assert LineIs(ls, reason.errors, i);
    }
  }

  lemma EveryLineReads(header: Header, errors: seq<AttemptError>, max: nat)
    requires errors != []
    ensures var ls := Lines(RenderHistory(header, errors, max));
      |ls| == |errors| + 1 && forall i: nat :: 1 <= i < |ls| ==> LineIs(ls, errors, i)
  {
    LinesOfHistory(header, errors, max);
    var ls := Lines(RenderHistory(header, errors, max));
    forall i: nat | 1 <= i < |ls| ensures LineIs(ls, errors, i) {
      AttemptLinesAt(errors, max, i - 1);
      AttemptLineReads(errors[i - 1], max);
    }
  }

  // One title, then attempts 1..n with n at most seven; a decision failure ends with its own stage.
  predicate NumberedNarrative(ls: seq<string>, reason: Reason)
    requires reason.History?
  {
    && 2 <= |ls| <= 8 && |ls| == |reason.errors| + 1
    && (forall i :: 1 <= i < |ls| ==>
          ReadLine(ls[i]) == Attempt(i, reason.errors[i - 1].cause.occurredAt, StageText(reason.errors[i - 1].stage)))
    && (reason.header.DecisionStageFailure? ==> reason.errors[|ls| - 2].stage.Decide?)
  }

  /** In every run of API traffic, crashes included, a row in human review that no rule sent there has a history, which
      splits into its title and lines that read as attempts 1..n in order. */
  lemma ReviewersReadTheWholeHistory(start: Protocol.World, events: seq<Protocol.Event>, u: nat, max: nat)
    requires Protocol.Init(start) && Protocol.IsRun(start, events)
    requires forall k :: 0 <= k < |events| ==> !events[k].Foreign?
    requires Repository.Exists(Protocol.After(start, events).rows, u)
    requires Protocol.After(start, events).rows[u].row.status.HumanReview?
    requires !Protocol.After(start, events).rows[u].row.reason.Rule?
    ensures var reason := Protocol.After(start, events).rows[u].row.reason;
      reason.History? && NumberedNarrative(Lines(RenderHistory(reason.header, reason.errors, max)), reason)
  {
    HistoryShape.HistoriesKeepTheirShape(start, events);
    var w := Protocol.After(start, events);
    assert HistoryShape.Explained(w, u);
    NumberedLines(w.rows[u].row.reason, !Invariants.NoMessageFor(w, u), max);
  }

  lemma NumberedFromOne(reason: Reason, published: bool)
    requires reason.History? && HistoryShape.ReasonShape(reason, published)
    ensures 1 <= |reason.errors| <= 7
    ensures forall k :: 0 <= k < |reason.errors| ==> reason.errors[k].attempt == k + 1
    ensures reason.header.DecisionStageFailure? ==> reason.errors[|reason.errors| - 1].stage.Decide?
  {
    if reason.header.DecisionStageFailure? {
      var earlier := HistoryShape.Earlier(reason.errors);
      var base: nat :| base <= 3 && HistoryShape.Staged(earlier, base);
      forall k | 0 <= k < |earlier| ensures reason.errors[k].attempt == k + 1 { assert earlier[k].attempt == k + 1; }
    }
  }
}
