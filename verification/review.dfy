/** Human review: the two-write transaction with rollback, and any number of such transactions
    interleaved under row locks. */
module ReviewTransactions {
  import opened Models
  import opened Repository
  import opened Ledgers

  // ---------------------------------------------------------------- one transaction

  datatype ReviewError = NotFound | NotEligible | UuidMismatch | WriteFailed

  datatype ReviewResult = Recorded(fromStatus: Status) | Refused(error: ReviewError)

  // Besides an answer and a refusal: the decision is committed, but the row could not be read again.
  datatype PutResult = Answered(fromStatus: Status, status: Status) | Failed(error: ReviewError) | CommittedUnread

  class ReviewService {
    var rows: seq<Slot>
    var audit: seq<Review>
    var transitions: seq<(Status, Status)>
    var failures: seq<nat>             // uuids of decision_write_failed records

    constructor (rows: seq<Slot>, audit: seq<Review>)
      ensures this.rows == rows && this.audit == audit && transitions == [] && failures == []
    {
      this.rows, this.audit, transitions, failures := rows, audit, [], [];
    }

    // approve(): UPDATE ... WHERE uuid AND status = ANY(eligible) RETURNING from_status.
    method Approve(u: nat, text: string, receipts: Receipts, now: nat) returns (fromStatus: Option<Status>)
      requires ReviewArgsOk(true, receipts)
      modifies this`rows
      ensures rows == AfterReview(old(rows), u, true, text, receipts, now)
      ensures fromStatus == if Eligible(old(rows), u) then Some(old(rows)[u].row.status) else None
    {
      if !Eligible(rows, u) {
        return None;
      }
      var row := rows[u].row;
      rows := rows[u := Present(Row(row.key, HumanApproved, now, Reviewed(text), receipts))];
      fromStatus := Some(row.status);
    }

    // reject(): the same gate, and COALESCE on the receipts columns.
    method Reject(u: nat, text: string, receipts: Receipts, now: nat) returns (fromStatus: Option<Status>)
      requires ReviewArgsOk(false, receipts)
      modifies this`rows
      ensures rows == AfterReview(old(rows), u, false, text, receipts, now)
      ensures fromStatus == if Eligible(old(rows), u) then Some(old(rows)[u].row.status) else None
    {
      if !Eligible(rows, u) {
        return None;
      }
      var row := rows[u].row;
      rows := rows[u := Present(Row(row.key, HumanRejected, now, Reviewed(text), Backfilled(receipts, row.receipts)))];
      fromStatus := Some(row.status);
    }

    /** approve_reimbursement / reject_reimbursement: both writes or neither, and the reason for neither. */
    method Review(u: nat, approved: bool, text: string, receipts: Receipts, now: nat, auditFails: bool)
          returns (r: ReviewResult)
      requires ReviewArgsOk(approved, receipts)
      modifies this`rows, this`audit
      ensures r.Recorded? <==> Eligible(old(rows), u) && !auditFails
      ensures r.Recorded? ==>
        && rows == AfterReview(old(rows), u, approved, text, receipts, now)
        && audit == old(audit) + [Models.Review(u, approved)]
        && r.fromStatus == old(rows)[u].row.status
      ensures r.Refused? ==> rows == old(rows) && audit == old(audit)
      ensures r.Refused? ==>
        r.error == if !Exists(old(rows), u) then NotFound else if !Eligible(old(rows), u) then NotEligible
            else WriteFailed
    {
      var snapshot := rows;
      var fromStatus: Option<Status>;
      if approved {
        fromStatus := Approve(u, text, receipts, now);
      } else {
        fromStatus := Reject(u, text, receipts, now);
      }
      if fromStatus.None? {
        return Refused(if Exists(rows, u) then NotEligible else NotFound);
      }
      if auditFails {
        rows := snapshot;
        return Refused(WriteFailed);
      }
      audit := audit + [Models.Review(u, approved)];
      r := Recorded(fromStatus.value);
    }

    /** put_reimbursement: a refusal counts nothing, an unexpected failure is logged, and a committed decision is
        counted from the row's true previous status to its new one exactly if the row can be read again. */
    method Put(path: nat, body: Option<nat>, approved: bool, text: string, receipts: Receipts, now: nat,
          auditFails: bool, rereadFails: bool)
      returns (r: PutResult)
      requires ReviewArgsOk(approved, receipts)
      modifies this
      ensures r ==
        if body.Some? && body.value != path then Failed(UuidMismatch)
        else if !Exists(old(rows), path) then Failed(NotFound)
        else if !Eligible(old(rows), path) then Failed(NotEligible)
        else if auditFails then Failed(WriteFailed)
        else if rereadFails then CommittedUnread
        else Answered(old(rows)[path].row.status, if approved then HumanApproved else HumanRejected)
      ensures r.Failed? ==> rows == old(rows) && audit == old(audit) && transitions == old(transitions)
      ensures failures == if r == Failed(WriteFailed) then old(failures) + [path] else old(failures)
      ensures !r.Failed? ==>
        && Eligible(old(rows), path) && HasStatus(rows, path, if approved then HumanApproved else HumanRejected)
        && rows == AfterReview(old(rows), path, approved, text, receipts, now)
        && audit == old(audit) + [Models.Review(path, approved)]
      ensures r.CommittedUnread? ==> rereadFails && transitions == old(transitions)
      ensures r.Answered? ==> !rereadFails && r == Answered(old(rows)[path].row.status, rows[path].row.status)
      ensures r.Answered? ==> transitions == old(transitions) + [(r.fromStatus, r.status)]
    {
      if body.Some? && body.value != path {
        return Failed(UuidMismatch);
      }
      var recorded := Review(path, approved, text, receipts, now, auditFails);
      match recorded {
        case Recorded(fromStatus) =>
          if rereadFails {
            return CommittedUnread;
          }
          var status := rows[path].row.status;
          transitions := transitions + [(fromStatus, status)];
          r := Answered(fromStatus, status);
        case Refused(error) =>
          if error.WriteFailed? {
            failures := failures + [path];
          }
          r := Failed(error);
      }
    }
  }

  // ---------------------------------------------------------------- interleaved transactions

  // A transaction between its UPDATE and its end holds the row's lock and an uncommitted new version.
  datatype Stage = Begun | Updated(next: Row) | Audited(next: Row) | Done | RolledBack

  datatype Tx = Tx(u: nat, approved: bool, text: string, receipts: Receipts, now: nat, stage: Stage)

  // Committed table and trail, and every transaction ever begun.
  datatype Db = Db(rows: seq<Slot>, audit: seq<Review>, txs: seq<Tx>)

  datatype Step =
    | Begin(u: nat, approved: bool, text: string, receipts: Receipts, now: nat)
    | Update(t: nat)
    | InsertAudit(t: nat, ok: bool)
    | CommitTx(t: nat)
    | Abort(t: nat)
    | InsertNew(row: Row)                      // publisher
    | DecidePending(u: nat, row: Row)          // agent: only ever a pending row
    | DeletePendingRow(u: nat)                 // compensating delete

  predicate Locks(db: Db, t: nat, u: nat) {
    t < |db.txs| && db.txs[t].u == u && (db.txs[t].stage.Updated? || db.txs[t].stage.Audited?)
  }

  ghost predicate Unlocked(db: Db, u: nat) {
    forall t: nat :: !Locks(db, t, u)
  }

  ghost predicate CanStep(db: Db, s: Step) {
    match s
    case Begin(_, approved, _, receipts, _) => ReviewArgsOk(approved, receipts)
    case Update(t) => t < |db.txs| && db.txs[t].stage.Begun? && Unlocked(db, db.txs[t].u)
    case InsertAudit(t, _) => t < |db.txs| && db.txs[t].stage.Updated?
    case CommitTx(t) => t < |db.txs| && db.txs[t].stage.Audited?
    case Abort(t) => t < |db.txs| && !db.txs[t].stage.Done?
    case InsertNew(row) => row.status == Pending || row.status == HumanReview
    case DecidePending(u, row) =>
      HasStatus(db.rows, u, Pending) && row.status in {AutoApproved, AutoRejected, HumanReview}
    case DeletePendingRow(u) => HasStatus(db.rows, u, Pending)
  }

  function SetStage(db: Db, t: nat, stage: Stage): Db
    requires t < |db.txs|
  {
    db.(txs := db.txs[t := db.txs[t].(stage := stage)])
  }

  function DoStep(db: Db, s: Step): Db
    requires CanStep(db, s)
  {
    match s
    case Begin(u, approved, text, receipts, now) => db.(txs := db.txs + [Tx(u, approved, text, receipts, now, Begun)])
    case Update(t) =>
      // After waiting for the lock, the WHERE clause is evaluated on the committed version.
      var tx := db.txs[t];
      if Eligible(db.rows, tx.u)
        then SetStage(db, t, Updated(ReviewedRow(db.rows[tx.u].row, tx.approved, tx.text, tx.receipts, tx.now)))
      else SetStage(db, t, RolledBack)
    case InsertAudit(t, ok) => SetStage(db, t, if ok then Audited(db.txs[t].stage.next) else RolledBack)
    case CommitTx(t) =>
      var tx := db.txs[t];
      SetStage(db, t, Done).(
        rows := if tx.u < |db.rows| then db.rows[tx.u := Present(tx.stage.next)] else db.rows,
        audit := db.audit + [Models.Review(tx.u, tx.approved)])
    case Abort(t) => SetStage(db, t, RolledBack)
    case InsertNew(row) => db.(rows := db.rows + [Present(row)])
    case DecidePending(u, row) => db.(rows := db.rows[u := Present(row)])
    case DeletePendingRow(u) => db.(rows := db.rows[u := Absent])
  }

  // A lock holder's new version was computed from the row as it still stands.
  ghost predicate LocksFresh(db: Db) {
    && (forall t: nat :: t < |db.txs| ==> ReviewArgsOk(db.txs[t].approved, db.txs[t].receipts))
    && (forall t: nat, u: nat :: Locks(db, t, u) ==>
          && Eligible(db.rows, u)
          && db.txs[t].stage.next == ReviewedRow(db.rows[u].row, db.txs[t].approved, db.txs[t].text,
            db.txs[t].receipts, db.txs[t].now))
    && (forall t: nat, t': nat, u: nat :: Locks(db, t, u) && Locks(db, t', u) ==> t == t')
  }

  predicate Approval(db: Db, t: nat) {
    t < |db.txs| && db.txs[t].stage.Done? && db.txs[t].approved
  }

  // Committed approvals are final, so there is at most one per row.
  ghost predicate ApprovalsFinal(db: Db) {
    && (forall t: nat :: Approval(db, t) ==> HasStatus(db.rows, db.txs[t].u, HumanApproved))
    && (forall t: nat, t': nat :: Approval(db, t) && Approval(db, t') && db.txs[t].u == db.txs[t'].u ==> t == t')
  }

  ghost predicate TrailAgrees(db: Db) {
    && (forall u: nat :: u < |db.rows| ==> RowAgrees(db.rows[u], ReviewsOf(db.audit, u)))
    && (forall u: nat :: u >= |db.rows| ==> ReviewsOf(db.audit, u) == [])
  }

  // Locks are only taken by an UPDATE of an unlocked, eligible row.
  lemma LockMoves(db: Db, s: Step, t: nat, u: nat)
    requires CanStep(db, s) && Locks(DoStep(db, s), t, u)
    ensures (Locks(db, t, u) && s != CommitTx(t)) || (s == Update(t) && Unlocked(db, u) && Eligible(db.rows, u))
  {
  }

  lemma LockStaysFresh(db: Db, s: Step, t: nat, u: nat)
    requires LocksFresh(db) && CanStep(db, s) && Locks(DoStep(db, s), t, u)
    ensures var db' := DoStep(db, s);
      && Eligible(db'.rows, u)
      && db'.txs[t].stage.next == ReviewedRow(db'.rows[u].row, db'.txs[t].approved, db'.txs[t].text,
        db'.txs[t].receipts, db'.txs[t].now)
  {
    LockMoves(db, s, t, u);
    assert s.CommitTx? ==> Locks(db, s.t, db.txs[s.t].u);
  }

  lemma LocksFreshStep(db: Db, s: Step)
    requires LocksFresh(db) && CanStep(db, s)
    ensures LocksFresh(DoStep(db, s))
  {
    var db' := DoStep(db, s);
    forall t: nat, u: nat | Locks(db', t, u)
      ensures Eligible(db'.rows, u)
      ensures db'.txs[t].stage.next == ReviewedRow(db'.rows[u].row, db'.txs[t].approved, db'.txs[t].text,
        db'.txs[t].receipts, db'.txs[t].now)
    {
      LockStaysFresh(db, s, t, u);
    }
    forall t: nat, t': nat, u: nat | Locks(db', t, u) && Locks(db', t', u) ensures t == t' {
      LockMoves(db, s, t, u);
      LockMoves(db, s, t', u);
    }
  }

  lemma ApprovalsFinalStep(db: Db, s: Step)
    requires LocksFresh(db) && ApprovalsFinal(db) && CanStep(db, s)
    ensures ApprovalsFinal(DoStep(db, s))
  {
    var db' := DoStep(db, s);
    assert s.CommitTx? ==> Locks(db, s.t, db.txs[s.t].u);
    forall t: nat | Approval(db', t) ensures HasStatus(db'.rows, db'.txs[t].u, HumanApproved) {
      ApprovalMoves(db, s, t);
    }
    forall t: nat, t': nat | Approval(db', t) && Approval(db', t') && db'.txs[t].u == db'.txs[t'].u ensures t == t' {
      ApprovalMoves(db, s, t);
      ApprovalMoves(db, s, t');
    }
  }

  // A commit needs an eligible row, which an approved row is not.
  lemma ApprovalMoves(db: Db, s: Step, t: nat)
    requires LocksFresh(db) && CanStep(db, s) && Approval(DoStep(db, s), t)
    ensures t < |db.txs| && DoStep(db, s).txs[t].u == db.txs[t].u
    ensures Approval(db, t) || (s == CommitTx(t) && Eligible(db.rows, db.txs[t].u))
  {
    assert s.CommitTx? ==> Locks(db, s.t, db.txs[s.t].u);
  }

  /** Refinement: a commit is exactly one atomic eligibility-gated review of the committed table, and no
      other transaction step shows. */
  lemma CommitIsOneAtomicReview(db: Db, s: Step)
    requires LocksFresh(db) && CanStep(db, s)
    ensures s.CommitTx? ==>
      var tx := db.txs[s.t];
      && Eligible(db.rows, tx.u)
      && DoStep(db, s).rows == AfterReview(db.rows, tx.u, tx.approved, tx.text, tx.receipts, tx.now)
      && DoStep(db, s).audit == db.audit + [Models.Review(tx.u, tx.approved)]
    ensures s.Begin? || s.Update? || s.InsertAudit? || s.Abort?
      ==> DoStep(db, s).rows == db.rows && DoStep(db, s).audit == db.audit
  {
    assert s.CommitTx? ==> Locks(db, s.t, db.txs[s.t].u);
  }

  /** A transaction that meets an unlocked, eligible row and no fault goes through, and leaves the table and the trail
      as the review says: status, reviewer's words, stamp and columns, and one entry at the end of the trail. */
  lemma UndisturbedReviewCommits(db: Db, u: nat, approved: bool, text: string, given: Receipts, now: nat)
    requires ReviewArgsOk(approved, given) && Unlocked(db, u) && u < |db.rows| && db.rows[u].Present?
    requires db.rows[u].row.status in {HumanReview, AutoRejected, HumanRejected}
    ensures var t := |db.txs|;
      var steps := [Begin(u, approved, text, given, now)] + ([Update(t)] + ([InsertAudit(t, true)] + [CommitTx(t)]));
      var row := db.rows[u].row;
      && IsHistory(db, steps)
      && AfterSteps(db, steps).audit == db.audit + [Models.Review(u, approved)]
      && AfterSteps(db, steps).rows == db.rows[u := Present(Row(
           row.key, if approved then HumanApproved else HumanRejected, now, Reviewed(text),
           if approved then given
           else Receipts(if given.value.Some? then given.value else row.receipts.value,
                         if given.date.Some? then given.date else row.receipts.date,
                         if given.currency.Some? then given.currency else row.receipts.currency)))]
  {
    var t := |db.txs|;
    var begin := Begin(u, approved, text, given, now);
    var db1 := DoStep(db, begin);
    assert forall t': nat :: Locks(db1, t', u) ==> Locks(db, t', u);
    var db2 := DoStep(db1, Update(t));
    var db3 := DoStep(db2, InsertAudit(t, true));
    OneMore(db3, CommitTx(t), []);
    OneMore(db2, InsertAudit(t, true), [CommitTx(t)] + []);
    OneMore(db1, Update(t), [InsertAudit(t, true)] + ([CommitTx(t)] + []));
    OneMore(db, begin, [Update(t)] + ([InsertAudit(t, true)] + ([CommitTx(t)] + [])));
    assert [CommitTx(t)] + [] == [CommitTx(t)];
  }

  lemma OneMore(db: Db, s: Step, steps: seq<Step>)
    requires CanStep(db, s) && IsHistory(DoStep(db, s), steps)
    ensures IsHistory(db, [s] + steps) && AfterSteps(db, [s] + steps) == AfterSteps(DoStep(db, s), steps)
  {
    assert ([s] + steps)[1..] == steps;
  }

  /** Who comes too late is refused: an UPDATE that finds its row approved, or in any other way not eligible, rolls
      back. */
  lemma LateUpdatesRollBack(db: Db, t: nat)
    requires CanStep(db, Update(t))
    requires db.txs[t].u >= |db.rows| || db.rows[db.txs[t].u].Absent?
      || db.rows[db.txs[t].u].row.status in {Pending, AutoApproved, HumanApproved}
    ensures DoStep(db, Update(t)) == Db(db.rows, db.audit, db.txs[t := db.txs[t].(stage := RolledBack)])
  {
  }

  lemma TrailAgreesStep(db: Db, s: Step)
    requires LocksFresh(db) && TrailAgrees(db) && CanStep(db, s)
    ensures TrailAgrees(DoStep(db, s))
  {
    var db' := DoStep(db, s);
    CommitIsOneAtomicReview(db, s);
    forall u: nat ensures u < |db'.rows| ==> RowAgrees(db'.rows[u], ReviewsOf(db'.audit, u))
                  ensures u >= |db'.rows| ==> ReviewsOf(db'.audit, u) == []
    {
      assert u < |db.rows| ==> RowAgrees(db.rows[u], ReviewsOf(db.audit, u));
      if s.CommitTx? {
        ReviewsAppend(db.audit, Models.Review(db.txs[s.t].u, db.txs[s.t].approved), u);
      }
    }
  }

  ghost predicate IsHistory(db: Db, steps: seq<Step>)
    decreases |steps|
  {
    |steps| == 0 || (CanStep(db, steps[0]) && IsHistory(DoStep(db, steps[0]), steps[1..]))
  }

  ghost function AfterSteps(db: Db, steps: seq<Step>): Db
    requires IsHistory(db, steps)
    decreases |steps|
  {
    if |steps| == 0 then db else AfterSteps(DoStep(db, steps[0]), steps[1..])
  }

  /** Over every interleaving with rollbacks: each row's committed history is rejected* approved?, its
      status says human-approved or human-rejected exactly as the history's last entry does, approved
      rows have all receipts columns, and of any set of concurrent approvals at most one commits. */
  lemma {:induction false} TrailAgreesUnderAnyInterleaving(db: Db, steps: seq<Step>)
    requires IsHistory(db, steps) && LocksFresh(db) && ApprovalsFinal(db) && TrailAgrees(db)
    ensures var db' := AfterSteps(db, steps); LocksFresh(db') && ApprovalsFinal(db') && TrailAgrees(db')
    decreases |steps|
  {
    if |steps| > 0 {
      LocksFreshStep(db, steps[0]);
      ApprovalsFinalStep(db, steps[0]);
      TrailAgreesStep(db, steps[0]);
      TrailAgreesUnderAnyInterleaving(DoStep(db, steps[0]), steps[1..]);
    }
  }

  /** The same from an empty database, spelled out for two approvals of one row. */
  lemma AtMostOneApprovalCommits(start: Db, steps: seq<Step>, t: nat, t': nat)
    requires start == Db([], [], []) && IsHistory(start, steps)
    requires Approval(AfterSteps(start, steps), t) && Approval(AfterSteps(start, steps), t')
    requires AfterSteps(start, steps).txs[t].u == AfterSteps(start, steps).txs[t'].u
    ensures t == t'
  {
    assert forall t: nat, u: nat :: !Locks(start, t, u);
    assert forall t: nat :: !Approval(start, t);
    TrailAgreesUnderAnyInterleaving(start, steps);
  }
}
