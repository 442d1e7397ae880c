/** The last-resort failure record: every string, key and depth of it cut to size before it is printed. */
module FailureLog {
  import opened Json
  import opened JsonPrinter
  import opened Models

  const MAX_DEPTH: nat := 10
  const MAX_MESSAGE_CHARS: nat := 2000
  const MARKER := "<max depth exceeded>"

  // ---------------------------------------------------------------- Python dicts as member sequences

  predicate Has(ms: seq<Member>, name: string) {
    exists i :: 0 <= i < |ms| && ms[i].name == name
  }

  predicate DistinctNames(ms: seq<Member>) {
    forall i, j :: 0 <= i < j < |ms| ==> ms[i].name != ms[j].name
  }

  function IndexOf(ms: seq<Member>, name: string): (i: nat)
    ensures i <= |ms| && (i < |ms| <==> Has(ms, name))
    ensures i < |ms| ==> ms[i].name == name
  {
    if ms == [] then 0 else if ms[0].name == name then 0
    else
      assert forall k :: 1 <= k < |ms| ==> ms[k] == ms[1..][k - 1];
      1 + IndexOf(ms[1..], name)
  }

  // d[name] = value: an existing key keeps its place.
  function Insert(ms: seq<Member>, m: Member): (r: seq<Member>)
    requires DistinctNames(ms)
    ensures DistinctNames(r)
    ensures forall k :: 0 <= k < |r| ==> r[k] == m || (k < |ms| && r[k] == ms[k])
  {
    var i := IndexOf(ms, m.name);
    if i < |ms| then ms[i := m] else ms + [m]
  }

  function Lookup(ms: seq<Member>, name: string): Option<Value> {
    var i := IndexOf(ms, name);
    if i < |ms| then Some(ms[i].value) else None
  }

  // A value Python can hold: no dict has a key twice.
  predicate IsPython(v: Value) {
    match v
    case JArray(vs) => forall k :: 0 <= k < |vs| ==> IsPython(vs[k])
    case JObject(ms) => DistinctNames(ms) && forall k :: 0 <= k < |ms| ==> IsPython(ms[k].value)
    case JNull => true
    case JBool(_) => true
    case JNumber(_) => true
    case JString(_) => true
  }

  // ---------------------------------------------------------------- the cut

  /** _truncated */
  function Truncated(v: Value, limit: nat, depth: nat): (r: Value)
    ensures IsPython(v) ==> IsPython(r)
    decreases v
  {
    if depth > MAX_DEPTH then JString(MARKER)
    else
      match v
      case JString(s) => JString(Upto(s, limit))
      case JObject(ms) => JObject(TruncatedMembers(ms, limit, depth + 1))
      case JArray(vs) => JArray(TruncatedElements(vs, limit, depth + 1))
      case JNull => v
      case JBool(_) => v
      case JNumber(_) => v
  }

  function TruncatedElements(vs: seq<Value>, limit: nat, depth: nat): (r: seq<Value>)
    ensures |r| == |vs| && forall k :: 0 <= k < |vs| ==> r[k] == Truncated(vs[k], limit, depth)
    decreases vs
  {
    if vs == [] then [] else TruncatedElements(vs[..|vs| - 1], limit, depth) + [Truncated(vs[|vs| - 1], limit, depth)]
  }

  // The dict comprehension: members in order, a repeated cut key overwriting in place.
  function TruncatedMembers(ms: seq<Member>, limit: nat, depth: nat): (r: seq<Member>)
    ensures DistinctNames(r)
    ensures (forall k :: 0 <= k < |ms| ==> IsPython(ms[k].value)) ==> forall k :: 0 <= k < |r| ==> IsPython(r[k].value)
    decreases ms
  {
    if ms == [] then []
    else
      var last := ms[|ms| - 1];
      Insert(TruncatedMembers(ms[..|ms| - 1], limit, depth),
             Member(Upto(last.name, limit), Truncated(last.value, limit, depth)))
  }

  // ---------------------------------------------------------------- what fits

  // Strings and keys within the limit, and nothing but the marker below the depth limit.
  predicate Fits(v: Value, limit: nat, depth: nat) {
    if depth > MAX_DEPTH then v == JString(MARKER)
    else
      match v
      case JString(s) => |s| <= limit
      case JObject(ms) => DistinctNames(ms) && AllFit(ms, limit, depth + 1)
      case JArray(vs) => forall k :: 0 <= k < |vs| ==> Fits(vs[k], limit, depth + 1)
      case JNull => true
      case JBool(_) => true
      case JNumber(_) => true
  }

  predicate AllFit(ms: seq<Member>, limit: nat, depth: nat) {
    forall m :: m in ms ==> MemberFits(m, limit, depth)
  }

  predicate MemberFits(m: Member, limit: nat, depth: nat) {
    |m.name| <= limit && Fits(m.value, limit, depth)
  }

  lemma {:induction false} TruncatedFits(v: Value, limit: nat, depth: nat)
    ensures Fits(Truncated(v, limit, depth), limit, depth)
    decreases v
  {
    if depth <= MAX_DEPTH {
      if v.JArray? {
        forall k | 0 <= k < |v.elements| { TruncatedFits(v.elements[k], limit, depth + 1); }
      } else if v.JObject? {
        TruncatedMembersFit(v.members, limit, depth + 1);
        assert Truncated(v, limit, depth).members == TruncatedMembers(v.members, limit, depth + 1);
      }
    }
  }

  lemma InsertFits(ms: seq<Member>, m: Member, limit: nat, depth: nat)
    requires DistinctNames(ms) && AllFit(ms, limit, depth) && MemberFits(m, limit, depth)
    ensures AllFit(Insert(ms, m), limit, depth)
  {
  }

  lemma {:induction false} TruncatedMembersFit(ms: seq<Member>, limit: nat, depth: nat)
    ensures AllFit(TruncatedMembers(ms, limit, depth), limit, depth)
    decreases ms
  {
    if ms != [] {
      var last := ms[|ms| - 1];
      TruncatedMembersFit(ms[..|ms| - 1], limit, depth);
      TruncatedFits(last.value, limit, depth);
      InsertFits(TruncatedMembers(ms[..|ms| - 1], limit, depth),
        Member(Upto(last.name, limit), Truncated(last.value, limit, depth)), limit, depth);
    }
  }

  lemma {:induction false} FittingIsUnchanged(v: Value, limit: nat, depth: nat)
    requires Fits(v, limit, depth)
    ensures Truncated(v, limit, depth) == v
    decreases v
  {
    if depth <= MAX_DEPTH {
      if v.JArray? {
        forall k | 0 <= k < |v.elements| ensures Truncated(v.elements[k], limit, depth + 1) == v.elements[k] {
          FittingIsUnchanged(v.elements[k], limit, depth + 1);
        }
        assert TruncatedElements(v.elements, limit, depth + 1) == v.elements;
      } else if v.JObject? {
        FittingMembersUnchanged(v.members, limit, depth + 1);
      }
    }
  }

  lemma {:induction false} FittingMembersUnchanged(ms: seq<Member>, limit: nat, depth: nat)
    requires DistinctNames(ms)
    requires AllFit(ms, limit, depth)
    ensures TruncatedMembers(ms, limit, depth) == ms
    decreases ms
  {
    if ms != [] {
      var front, last := ms[..|ms| - 1], ms[|ms| - 1];
      assert ms == front + [last];
      FittingMembersUnchanged(front, limit, depth);
      assert MemberFits(last, limit, depth);
      FittingIsUnchanged(last.value, limit, depth);
      assert !Has(front, last.name);
    }
  }

  /** Truncation is a projection: its fixed points are exactly the values that fit, and every result fits. */
  lemma TruncationIsAProjection(v: Value, limit: nat, depth: nat)
    ensures Truncated(v, limit, depth) == v <==> Fits(v, limit, depth)
    ensures Truncated(Truncated(v, limit, depth), limit, depth) == Truncated(v, limit, depth)
  {
    TruncatedFits(v, limit, depth);
    FittingIsUnchanged(Truncated(v, limit, depth), limit, depth);
    if Fits(v, limit, depth) { FittingIsUnchanged(v, limit, depth); }
  }

  // How deep a value nests: a leaf is 0.
  function Nesting(v: Value): nat {
    match v
    case JArray(vs) => if vs == [] then 0 else 1 + DeepestOf(vs)
    case JObject(ms) => if ms == [] then 0 else 1 + DeepestMember(ms)
    case JNull => 0
    case JBool(_) => 0
    case JNumber(_) => 0
    case JString(_) => 0
  }

  function DeepestOf(vs: seq<Value>): nat {
    if vs == [] then 0 else Larger(Nesting(vs[0]), DeepestOf(vs[1..]))
  }

  function DeepestMember(ms: seq<Member>): nat {
    if ms == [] then 0 else Larger(Nesting(ms[0].value), DeepestMember(ms[1..]))
  }

  function Larger(a: nat, b: nat): nat { if a < b then b else a }

  /** What fits at depth 0 nests at most eleven levels, the last of them holding only markers. */
  lemma {:induction false} FittingIsShallow(v: Value, limit: nat, depth: nat)
    requires Fits(v, limit, depth) && depth <= MAX_DEPTH + 1
    ensures Nesting(v) <= MAX_DEPTH + 1 - depth
    decreases v
  {
    if depth <= MAX_DEPTH {
      if v.JArray? {
        ElementsAreShallow(v.elements, limit, depth + 1);
      } else if v.JObject? {
        MembersAreShallow(v.members, limit, depth + 1);
      }
    }
  }

  lemma {:induction false} ElementsAreShallow(vs: seq<Value>, limit: nat, depth: nat)
    requires depth <= MAX_DEPTH + 1 && forall k :: 0 <= k < |vs| ==> Fits(vs[k], limit, depth)
    ensures DeepestOf(vs) <= MAX_DEPTH + 1 - depth
    decreases vs
  {
    if vs != [] {
      FittingIsShallow(vs[0], limit, depth);
      ElementsAreShallow(vs[1..], limit, depth);
    }
  }

  lemma {:induction false} MembersAreShallow(ms: seq<Member>, limit: nat, depth: nat)
    requires depth <= MAX_DEPTH + 1 && AllFit(ms, limit, depth)
    ensures DeepestMember(ms) <= MAX_DEPTH + 1 - depth
    decreases ms
  {
    if ms != [] {
      assert MemberFits(ms[0], limit, depth);
      FittingIsShallow(ms[0].value, limit, depth);
      MembersAreShallow(ms[1..], limit, depth);
    }
  }

  // ---------------------------------------------------------------- looking up a key after the cut

  lemma LookupInserted(ms: seq<Member>, m: Member, name: string)
    requires DistinctNames(ms)
    ensures Lookup(Insert(ms, m), name) == if name == m.name then Some(m.value) else Lookup(ms, name)
  {
    var r := Insert(ms, m);
    var i, j := IndexOf(ms, name), IndexOf(r, name);
    if name == m.name {
      assert r[if IndexOf(ms, name) < |ms| then IndexOf(ms, name) else |ms|] == m;
    } else {
      assert i < |ms| ==> r[i] == ms[i];
      assert j < |r| ==> j < |ms| && r[j] == ms[j];
    }
  }

  lemma {:induction false} LookupSplit(ms: seq<Member>, name: string)
    requires ms != [] && DistinctNames(ms)
    ensures Lookup(ms, name) ==
      if ms[|ms| - 1].name == name then Some(ms[|ms| - 1].value) else Lookup(ms[..|ms| - 1], name)
  {
    var front, last := ms[..|ms| - 1], ms[|ms| - 1];
    assert ms == front + [last];
    assert !Has(front, last.name);
    LookupInserted(front, last, name);
    assert Insert(front, last) == ms;
  }

  /** A key shorter than the limit finds after the cut what it found before, cut: no longer key can take its place. */
  lemma {:induction false} ShortKeysKeepTheirValue(ms: seq<Member>, name: string, limit: nat, depth: nat)
    requires DistinctNames(ms) && |name| < limit
    ensures Lookup(TruncatedMembers(ms, limit, depth), name)
      == match Lookup(ms, name) case None => None case Some(v) => Some(Truncated(v, limit, depth))
    decreases ms
  {
    if ms != [] {
      var last := ms[|ms| - 1];
      LookupSplit(ms, name);
      ShortKeysKeepTheirValue(ms[..|ms| - 1], name, limit, depth);
      LookupInserted(TruncatedMembers(ms[..|ms| - 1], limit, depth),
        Member(Upto(last.name, limit), Truncated(last.value, limit, depth)), name);
      assert Upto(last.name, limit) == name <==> last.name == name;
    }
  }

  /** At a key exactly as long as the limit the guarantee ends: a longer key overwrites it. */
  lemma KeysAtTheLimitCollide(name: string, more: string, v: Value, w: Value, depth: nat)
    requires more != "" && Truncated(v, |name|, depth) != Truncated(w, |name|, depth)
    ensures var ms := [Member(name, v), Member(name + more, w)];
      && Lookup(ms, name) == Some(v)
      && Lookup(TruncatedMembers(ms, |name|, depth), name) == Some(Truncated(w, |name|, depth))
  {
    var a, b := Member(name, v), Member(name + more, w);
    assert [a, b][..1] == [a] && [a][..0] == [];
    assert Upto(name + more, |name|) == name && Upto(name, |name|) == name;
    LookupInserted(TruncatedMembers([a], |name|, depth), Member(name, Truncated(w, |name|, depth)), name);
    LookupSplit([a, b], name);
    LookupSplit([a], name);
  }

  /** The cut, value by value: a text to its first characters, an array element by element, and below the tenth level
      whatever is there to the marker; numbers, booleans and null pass. */
  lemma CutValueByValue(v: Value, limit: nat, depth: nat)
    ensures depth > 10 ==> Truncated(v, limit, depth) == JString("<max depth exceeded>")
    ensures depth <= 10 && v.JString? ==>
      Truncated(v, limit, depth) == JString(if |v.text| <= limit then v.text else v.text[..limit])
    ensures depth <= 10 && v.JArray? ==>
      var r := Truncated(v, limit, depth);
      && r.JArray? && |r.elements| == |v.elements|
      && forall k :: 0 <= k < |v.elements| ==> r.elements[k] == Truncated(v.elements[k], limit, depth + 1)
    ensures depth <= 10 && (v.JNull? || v.JBool? || v.JNumber?) ==> Truncated(v, limit, depth) == v
  {
  }

  /** And a dict member by member, in order, as long as no two keys become the same. */
  lemma CutMemberByMember(ms: seq<Member>, limit: nat, depth: nat)
    requires depth <= 10 && DistinctNames(ms) && forall m :: m in ms ==> |m.name| < limit
    ensures var r := Truncated(JObject(ms), limit, depth);
      && r.JObject? && |r.members| == |ms|
      && forall k :: 0 <= k < |ms| ==> r.members[k] == Member(ms[k].name, Truncated(ms[k].value, limit, depth + 1))
  {
    CutOfAnObject(ms, limit, depth);
    MembersOneByOne(ms, limit, depth + 1);
  }

  // Each member cut on its own, its key kept.
  function EachCut(ms: seq<Member>, limit: nat, depth: nat): (r: seq<Member>)
    ensures |r| == |ms|
  {
    seq(|ms|, k requires 0 <= k < |ms| => Member(ms[k].name, Truncated(ms[k].value, limit, depth)))
  }

  lemma {:induction false} MembersOneByOne(ms: seq<Member>, limit: nat, depth: nat)
    requires DistinctNames(ms) && forall m :: m in ms ==> |m.name| < limit
    ensures TruncatedMembers(ms, limit, depth) == EachCut(ms, limit, depth)
    decreases |ms|
  {
    if ms == [] {
      assert EachCut(ms, limit, depth) == [];
    } else {
      var front, last := ms[..|ms| - 1], ms[|ms| - 1];
      assert ms == front + [last] && last in ms;
      FrontKeeps(ms, front, last, limit);
      MembersOneByOne(front, limit, depth);
      LastMember(ms, front, last, EachCut(front, limit, depth), limit, depth);
      EachCutSplits(ms, front, last, limit, depth);
    }
  }

  lemma FrontKeeps(ms: seq<Member>, front: seq<Member>, last: Member, limit: nat)
    requires ms == front + [last] && DistinctNames(ms) && forall m :: m in ms ==> |m.name| < limit
    ensures DistinctNames(front) && forall m :: m in front ==> |m.name| < limit
  {
    assert forall k :: 0 <= k < |front| ==> front[k] == ms[k];
    assert forall m :: m in front ==> m in ms;
  }

  lemma EachCutSplits(ms: seq<Member>, front: seq<Member>, last: Member, limit: nat, depth: nat)
    requires ms == front + [last]
    ensures EachCut(ms, limit, depth)
         == EachCut(front, limit, depth) + [Member(last.name, Truncated(last.value, limit, depth))]
  {
  }

  lemma LastMember(ms: seq<Member>, front: seq<Member>, last: Member, cut: seq<Member>, limit: nat, depth: nat)
    requires ms == front + [last] && DistinctNames(ms) && last in ms && |last.name| < limit
    requires cut == TruncatedMembers(front, limit, depth) && |cut| == |front|
    requires forall k :: 0 <= k < |front| ==> cut[k].name == front[k].name
    ensures TruncatedMembers(ms, limit, depth) == cut + [Member(last.name, Truncated(last.value, limit, depth))]
  {
    assert ms[..|ms| - 1] == front && ms[|ms| - 1] == last;
    assert !Has(cut, last.name);
  }

  // ---------------------------------------------------------------- the publisher's record

  // item.get("request_id")
  function RequestId(item: seq<Member>): Value {
    match Lookup(item, "request_id")
    case None => JNull
    case Some(v) => v
  }

  /** _failure_record */
  function FailureRecord(event: string, index: nat, item: seq<Member>, errors: seq<Value>,
        extra: seq<Member>): seq<Member> {
    [Member("event", JString(event)), Member("item_index", JNumber(Decimal.NatText(index))),
     Member("request_id", RequestId(item)), Member("item", JObject(item)), Member("errors", JArray(errors))] + extra
  }

  // The keyword arguments a caller adds: an outcome, an error, never one of the five names.
  predicate ExtraNames(extra: seq<Member>) {
    DistinctNames(extra) && forall k :: 0 <= k < |extra| ==>
      extra[k].name !in ["event", "item_index", "request_id", "item", "errors"]
  }

  lemma LookupAt(ms: seq<Member>, i: nat)
    requires i < |ms| && DistinctNames(ms)
    ensures Lookup(ms, ms[i].name) == Some(ms[i].value)
  {
    var j := IndexOf(ms, ms[i].name);
    assert j < |ms|;
    assert !(i < j) && !(j < i);
  }

  lemma FiveNames()
    ensures "event" != "item_index" && "event" != "request_id" && "event" != "item" && "event" != "errors"
    ensures "item_index" != "request_id" && "item_index" != "item" && "item_index" != "errors"
    ensures "request_id" != "item" && "request_id" != "errors" && "item" != "errors"
  {
    assert |"event"| == 5 && |"item_index"| == 10 && |"request_id"| == 10 && |"item"| == 4 && |"errors"| == 6;
    assert "item_index"[0] == 'i' && "request_id"[0] == 'r';
  }

  lemma RecordIsADict(event: string, index: nat, item: seq<Member>, errors: seq<Value>, extra: seq<Member>)
    requires ExtraNames(extra)
    ensures DistinctNames(FailureRecord(event, index, item, errors, extra))
  {
    var ms := FailureRecord(event, index, item, errors, extra);
    FiveNames();
    forall i, j | 0 <= i < j < |ms| ensures ms[i].name != ms[j].name {
      if j >= 5 {
        assert ms[j] == extra[j - 5];
        if i >= 5 { assert ms[i] == extra[i - 5]; }
      }
    }
  }

  /** What a record carries: the event, the item's place in its message, its id, the item, and the history so far. */
  lemma RecordCarries(event: string, index: nat, item: seq<Member>, errors: seq<Value>, extra: seq<Member>)
    requires ExtraNames(extra)
    ensures var record := FailureRecord(event, index, item, errors, extra);
      && Lookup(record, "event") == Some(JString(event))
      && Lookup(record, "item_index") == Some(JNumber(Decimal.NatText(index)))
      && Lookup(record, "request_id") == Some(if Has(item, "request_id") then item[IndexOf(item, "request_id")].value
        else JNull)
      && Lookup(record, "item") == Some(JObject(item)) && Lookup(record, "errors") == Some(JArray(errors))
  {
    var record := FailureRecord(event, index, item, errors, extra);
    RecordIsADict(event, index, item, errors, extra);
    LookupAt(record, 0);
    LookupAt(record, 1);
    LookupAt(record, 2);
    LookupAt(record, 3);
    LookupAt(record, 4);
  }

  // What the written record says at item.request_id.
  function WrittenItemId(record: seq<Member>, limit: nat): Option<Value> {
    match Lookup(TruncatedMembers(record, limit, 1), "item")
    case None => None
    case Some(item) => if item.JObject? then Lookup(item.members, "request_id") else None
  }

  /** A record names its item by the raw id cut to the limit, at both places; so it names it exactly if
      and only if the raw text of the id is no longer than the limit. */
  lemma RecordNamesItsItem(event: string, index: nat, item: seq<Member>, errors: seq<Value>, extra: seq<Member>,
        raw: string, limit: nat)
    requires ExtraNames(extra) && DistinctNames(item) && Lookup(item, "request_id") == Some(JString(raw)) && limit > 10
    ensures var record := FailureRecord(event, index, item, errors, extra);
      && Lookup(TruncatedMembers(record, limit, 1), "request_id") == Some(JString(Upto(raw, limit)))
      && WrittenItemId(record, limit) == Some(JString(Upto(raw, limit)))
      && (WrittenItemId(record, limit) == Some(JString(raw)) <==> |raw| <= limit)
  {
    var record := FailureRecord(event, index, item, errors, extra);
    RecordIsADict(event, index, item, errors, extra);
    LookupAt(record, 2);
    LookupAt(record, 3);
    assert |"request_id"| == 10 && |"item"| == 4;
    ShortKeysKeepTheirValue(record, "request_id", limit, 1);
    ShortKeysKeepTheirValue(record, "item", limit, 1);
    ShortKeysKeepTheirValue(item, "request_id", limit, 2);
  }

  // ---------------------------------------------------------------- the printed record

  lemma {:induction false} CutIsPrintable(v: Value, limit: nat, depth: nat)
    requires Printable(v)
    ensures Printable(Truncated(v, limit, depth))
    decreases v
  {
    if v.JArray? {
      CutElementsArePrintable(v.elements, limit, depth + 1);
      PrintableArray(v.elements, limit, depth);
    } else if v.JObject? {
      CutMembersArePrintable(v.members, limit, depth + 1);
      PrintableObject(v.members, limit, depth);
    }
  }

  lemma PrintableArray(vs: seq<Value>, limit: nat, depth: nat)
    requires forall v :: v in TruncatedElements(vs, limit, depth + 1) ==> Printable(v)
    ensures Printable(Truncated(JArray(vs), limit, depth))
  {
    CutOfAnArray(vs, limit, depth);
    PrintableParts(TruncatedElements(vs, limit, depth + 1), []);
  }

  lemma PrintableObject(ms: seq<Member>, limit: nat, depth: nat)
    requires forall m :: m in TruncatedMembers(ms, limit, depth + 1) ==> Printable(m.value)
    ensures Printable(Truncated(JObject(ms), limit, depth))
  {
    CutOfAnObject(ms, limit, depth);
    PrintableParts([], TruncatedMembers(ms, limit, depth + 1));
  }

  lemma CutOfAnArray(vs: seq<Value>, limit: nat, depth: nat)
    ensures Truncated(JArray(vs), limit, depth)
         == if depth > MAX_DEPTH then JString(MARKER) else JArray(TruncatedElements(vs, limit, depth + 1))
  {
  }

  lemma CutOfAnObject(ms: seq<Member>, limit: nat, depth: nat)
    ensures Truncated(JObject(ms), limit, depth)
         == if depth > MAX_DEPTH then JString(MARKER) else JObject(TruncatedMembers(ms, limit, depth + 1))
  {
  }

  lemma PrintableParts(vs: seq<Value>, ms: seq<Member>)
    requires (forall v :: v in vs ==> Printable(v)) && forall m :: m in ms ==> Printable(m.value)
    ensures Printable(JArray(vs)) && Printable(JObject(ms))
  {
  }

  lemma {:induction false} CutElementsArePrintable(vs: seq<Value>, limit: nat, depth: nat)
    requires forall v :: v in vs ==> Printable(v)
    ensures forall v :: v in TruncatedElements(vs, limit, depth) ==> Printable(v)
    decreases vs
  {
    if vs != [] {
      CutElementsArePrintable(vs[..|vs| - 1], limit, depth);
      CutIsPrintable(vs[|vs| - 1], limit, depth);
    }
  }

  lemma {:induction false} CutMembersArePrintable(ms: seq<Member>, limit: nat, depth: nat)
    requires forall m :: m in ms ==> Printable(m.value)
    ensures forall m :: m in TruncatedMembers(ms, limit, depth) ==> Printable(m.value)
    decreases ms
  {
    if ms != [] {
      CutMembersArePrintable(ms[..|ms| - 1], limit, depth);
      CutIsPrintable(ms[|ms| - 1].value, limit, depth);
    }
  }

  /** write: the one line that reaches the log reads back as the truncated record, so everything said of the
      truncated record is true of what an operator finds there. */
  lemma WrittenLineReadsBack(record: seq<Member>, limit: nat)
    requires Printable(JObject(record))
    ensures Parse(Dumps(Truncated(JObject(record), limit, 0))) == Document(JObject(TruncatedMembers(record, limit, 1)))
  {
    CutIsPrintable(JObject(record), limit, 0);
    DocumentRoundTrip(Truncated(JObject(record), limit, 0));
  }

  // ---------------------------------------------------------------- which ids that is

  predicate IsPadding(c: char) {
    var n := c as int;
    0x09 <= n <= 0x0D || n == 0x20 || n == 0x85 || n == 0xA0 || n == 0x1680 || 0x2000 <= n <= 0x200A
    || n == 0x2028 || n == 0x2029 || n == 0x202F || n == 0x205F || n == 0x3000
  }

  // The padding a request id loses: tabs, line ends and blanks of every width.
  lemma PaddingIs(c: char)
    ensures IsPadding(c) <==> c as int in {
      0x09, 0x0A, 0x0B, 0x0C, 0x0D, 0x20, 0x85, 0xA0, 0x1680, 0x2000, 0x2001, 0x2002, 0x2003, 0x2004, 0x2005, 0x2006,
      0x2007, 0x2008, 0x2009, 0x200A, 0x2028, 0x2029, 0x202F, 0x205F, 0x3000}
  {
  }

  function TrimStart(s: string): string {
    if s != "" && IsPadding(s[0]) then TrimStart(s[1..]) else s
  }

  function TrimEnd(s: string): string {
    if s != "" && IsPadding(s[|s| - 1]) then TrimEnd(s[..|s| - 1]) else s
  }

  function Stripped(s: string): string { TrimEnd(TrimStart(s)) }

  predicate IdChar(c: char) {
    'A' <= c <= 'Z' || 'a' <= c <= 'z' || '0' <= c <= '9' || c == '_' || c == '-'
  }

  predicate BareId(s: string) {
    1 <= |s| <= 128 && forall k :: 0 <= k < |s| ==> IdChar(s[k])
  }

  // The request model strips before it measures; the item it validated keeps the raw text.
  predicate ValidId(raw: string) { BareId(Stripped(raw)) }

  function Spaces(n: nat): (s: string)
    ensures |s| == n && forall k :: 0 <= k < n ==> s[k] == ' '
  {
    seq(n, _ => ' ')
  }

  lemma BareIdIsItsOwnStrip(id: string)
    requires BareId(id)
    ensures Stripped(id) == id
  {
    assert IdChar(id[0]) && IdChar(id[|id| - 1]);
  }

  lemma {:induction false} TrimStartOfSpaces(n: nat, s: string)
    ensures TrimStart(Spaces(n) + s) == TrimStart(s)
    decreases n
  {
    if n == 0 {
      assert Spaces(0) + s == s;
    } else {
      assert (Spaces(n) + s)[1..] == Spaces(n - 1) + s;
      TrimStartOfSpaces(n - 1, s);
    }
  }

  // The cut of every text in a record, in characters.
  lemma LimitIs()
    ensures MAX_MESSAGE_CHARS == 2000
  {
  }

  /** An id of 1 to 128 letters, digits, underscores and hyphens that the caller sent bare is valid, and always named in
      full in the failure log. */
  lemma BareIdsSurvive(id: string)
    requires 1 <= |id| <= 128
    requires forall c :: c in id ==> 'A' <= c <= 'Z' || 'a' <= c <= 'z' || '0' <= c <= '9' || c == '_' || c == '-'
    ensures ValidId(id) && Upto(id, MAX_MESSAGE_CHARS) == id
  {
    assert forall k :: 0 <= k < |id| ==> id[k] in id;
    BareIdIsItsOwnStrip(id);
  }

  /** But a valid item whose id is padded past the limit is logged under blanks: nothing of its id is left. */
  lemma PaddedIdIsLost(id: string, limit: nat)
    requires BareId(id)
    ensures var raw := Spaces(limit) + id;
      ValidId(raw) && Upto(raw, limit) == Spaces(limit) && !ValidId(Upto(raw, limit))
  {
    BareIdIsItsOwnStrip(id);
    TrimStartOfSpaces(limit, id);
    TrimStartOfSpaces(limit, "");
    assert Spaces(limit) + "" == Spaces(limit);
  }
}
