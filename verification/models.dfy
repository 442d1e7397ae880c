/** Records shared by every service: statuses, attempt errors, items and rows. */
module Models {

  const MAX_RETRY: nat := 3
  const MAX_BATCH_ITEMS: nat := 500

  datatype Option<+T> = None | Some(value: T)

  datatype Status = Pending | AutoApproved | AutoRejected | HumanReview | HumanApproved | HumanRejected

  // The statuses a decision (and its escalation fallback) may write.
  type DecisionStatus = s: Status | s.AutoApproved? || s.AutoRejected? || s.HumanReview? witness HumanReview

  datatype Stage = DbInsert | Publish | Resolve | Decide

  // s[:max]
  function Upto(s: string, max: nat): (r: string)
    ensures r <= s && |r| == if |s| <= max then |s| else max
  {
    if |s| <= max then s else s[..max]
  }

  // The text of datetime.isoformat().
  predicate IsoText(s: string) {
    s != "" && forall k :: 0 <= k < |s| ==> '0' <= s[k] <= '9' || s[k] in "-:.T+"
  }

  type Stamp = s: string | IsoText(s) witness "0"

  // What an exception leaves behind: when, its type name, its text.
  datatype Cause = Cause(occurredAt: Stamp, errorType: string, message: string)

  datatype AttemptError = AttemptError(attempt: int, stage: Stage, cause: Cause)

  /** `[*errors, AttemptError.from_exception(len(errors) + 1, stage, exc)]` */
  function Appended(errors: seq<AttemptError>, stage: Stage, cause: Cause): seq<AttemptError> {
    errors + [AttemptError(|errors| + 1, stage, cause)]
  }

  // The dedup key of the unique index: the stripped request id and the lower-cased submitter.
  datatype Key = Key(requestId: string, submitter: string)

  // `valid` stands for acceptance by the request model, which the API and the publisher share.
  datatype Item = Item(key: Key, valid: bool, body: string)

  datatype Receipts = Receipts(value: Option<real>, date: Option<int>, currency: Option<string>)

  const NO_RECEIPTS := Receipts(None, None, None)

  // A Python float. Every comparison with NaN is false, so `<= 200` and `> 2000` are no partition.
  datatype Float = NaN | NegInf | PosInf | Fin(x: real)

  // The parts of a decision's reason.
  datatype Why =
    | Unresolved(fields: seq<string>)
    | StaleReceipt(date: int, daysOld: int, today: int)
    | WithinCeiling(value: Float)
    | AboveFloor(value: Float)
    | Judged(text: string)

  datatype Header = RetryCeilingReached | DecisionStageFailure

  // A row's decision_reason. `History` stays structured here; the printer module renders it.
  datatype Reason =
    | NoReason
    | Rule(why: Why)
    | Reviewed(text: string)
    | History(header: Header, errors: seq<AttemptError>)

  datatype Row = Row(key: Key, status: Status, updatedAt: nat, reason: Reason, receipts: Receipts)

  // A uuid is an index into the table; a deleted row leaves its slot Absent for ever.
  datatype Slot = Absent | Present(row: Row)

  datatype Review = Review(uuid: nat, approved: bool)
}
