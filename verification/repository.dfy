/** The SQL statements against the reimbursement table, as functions on its contents. */
module Repository {
  import opened Models

  const ELIGIBLE_STATUSES: set<Status> := {HumanReview, AutoRejected, HumanRejected}

  predicate Exists(rows: seq<Slot>, uuid: nat) {
    uuid < |rows| && rows[uuid].Present?
  }

  predicate HasStatus(rows: seq<Slot>, uuid: nat, status: Status) {
    Exists(rows, uuid) && rows[uuid].row.status == status
  }

  // The unique index on (request_id, lower(submitted_by)) would reject this key.
  predicate KeyTaken(rows: seq<Slot>, key: Key) {
    exists u :: 0 <= u < |rows| && rows[u].Present? && rows[u].row.key == key
  }

  ghost predicate UniqueKeys(rows: seq<Slot>) {
    forall u, v :: 0 <= u < v < |rows| && rows[u].Present? && rows[v].Present? ==>
      rows[u].row.key != rows[v].row.key
  }

  // The CHECK constraints the writes below can run into.
  predicate ReceiptsOk(receipts: Receipts) {
    receipts.value.Some? ==> receipts.value.value >= 0.0
  }

  function Coalesce<T>(given: Option<T>, kept: Option<T>): Option<T> {
    if given.Some? then given else kept
  }

  function Backfilled(given: Receipts, kept: Receipts): Receipts {
    Receipts(Coalesce(given.value, kept.value), Coalesce(given.date, kept.date),
        Coalesce(given.currency, kept.currency))
  }

  function PendingRow(key: Key, now: nat): Row {
    Row(key, Pending, now, NoReason, NO_RECEIPTS)
  }

  function HumanReviewRow(key: Key, reason: Reason, now: nat): Row {
    Row(key, HumanReview, now, reason, NO_RECEIPTS)
  }

  function Inserted(rows: seq<Slot>, row: Row): seq<Slot> {
    rows + [Present(row)]
  }

  /** UPDATE ... WHERE uuid = $1: no status guard at all. */
  function Decided(rows: seq<Slot>, uuid: nat, status: DecisionStatus, reason: Reason, receipts: Receipts,
        now: nat): seq<Slot> {
    if !Exists(rows, uuid) then rows
    else
      var row := rows[uuid].row;
      rows[uuid := Present(Row(row.key, status, now, reason, Backfilled(receipts, row.receipts)))]
  }

  predicate Eligible(rows: seq<Slot>, uuid: nat) {
    Exists(rows, uuid) && rows[uuid].row.status in ELIGIBLE_STATUSES
  }

  function ReviewedRow(row: Row, approved: bool, text: string, receipts: Receipts, now: nat): Row {
    if approved then Row(row.key, HumanApproved, now, Reviewed(text), receipts)
    else Row(row.key, HumanRejected, now, Reviewed(text), Backfilled(receipts, row.receipts))
  }

  // Approving demands all three receipts columns; rejecting demands none.
  predicate ReviewArgsOk(approved: bool, receipts: Receipts) {
    && ReceiptsOk(receipts)
    && (approved ==> receipts.value.Some? && receipts.date.Some? && receipts.currency.Some?)
  }

  /** UPDATE ... WHERE uuid = $1 AND status = ANY($2), shared by approve and reject. */
  function AfterReview(rows: seq<Slot>, uuid: nat, approved: bool, text: string, receipts: Receipts,
        now: nat): seq<Slot> {
    if Eligible(rows, uuid) then rows[uuid := Present(ReviewedRow(rows[uuid].row, approved, text, receipts, now))]
      else rows
  }

  /** DELETE ... WHERE uuid = $1 AND status = 'pending'. */
  function PendingDeleted(rows: seq<Slot>, uuid: nat): seq<Slot> {
    if HasStatus(rows, uuid, Pending) then rows[uuid := Absent] else rows
  }

  /** Every statement keeps the unique index true: insertion is the only one that must check it. */
  lemma StatementsKeepKeysUnique(rows: seq<Slot>, row: Row, uuid: nat, status: DecisionStatus, reason: Reason,
                                 receipts: Receipts, approved: bool, text: string, now: nat)
    requires UniqueKeys(rows)
    ensures UniqueKeys(Inserted(rows, row)) <==> !KeyTaken(rows, row.key)
    ensures UniqueKeys(Decided(rows, uuid, status, reason, receipts, now))
    ensures UniqueKeys(AfterReview(rows, uuid, approved, text, receipts, now))
    ensures UniqueKeys(PendingDeleted(rows, uuid))
  {
    var after := Inserted(rows, row);
    assert after[|rows|] == Present(row);
    if KeyTaken(rows, row.key) {
      var u :| 0 <= u < |rows| && rows[u].Present? && rows[u].row.key == row.key;
      assert after[u] == rows[u];
    }
  }

  // Column by column: what is given is stored, what is not given is kept.
  predicate Stored(before: Receipts, given: Receipts, after: Receipts) {
    && after.value == (if given.value.Some? then given.value else before.value)
    && after.date == (if given.date.Some? then given.date else before.date)
    && after.currency == (if given.currency.Some? then given.currency else before.currency)
  }

  // No column that was filled is emptied.
  predicate NotErased(before: Receipts, after: Receipts) {
    && (before.value.Some? ==> after.value.Some?)
    && (before.date.Some? ==> after.date.Some?)
    && (before.currency.Some? ==> after.currency.Some?)
  }

  /** Decisions and reviews store every receipts column they are given and never empty one: COALESCE where a
      column may be missing, and an approval that must bring all three. */
  lemma StatementsKeepReceipts(rows: seq<Slot>, uuid: nat, status: DecisionStatus, reason: Reason,
                               receipts: Receipts, approved: bool, text: string, now: nat)
    requires Exists(rows, uuid) && ReviewArgsOk(approved, receipts)
    ensures Stored(rows[uuid].row.receipts, receipts,
      Decided(rows, uuid, status, reason, receipts, now)[uuid].row.receipts)
    ensures Eligible(rows, uuid) ==>
      Stored(rows[uuid].row.receipts, receipts,
          AfterReview(rows, uuid, approved, text, receipts, now)[uuid].row.receipts)
    ensures NotErased(rows[uuid].row.receipts, Decided(rows, uuid, status, reason, receipts, now)[uuid].row.receipts)
    ensures NotErased(rows[uuid].row.receipts,
      AfterReview(rows, uuid, approved, text, receipts, now)[uuid].row.receipts)
  {
  }
}
